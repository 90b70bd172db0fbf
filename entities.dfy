/**
 * An entity class and an object of it as Java reflection shows them to the MySQL
 * helpers: the class's simple name, its @TableName annotation, its declared fields in
 * declaration order, and the value each field holds (None for null).
 */
module Entities {
  import opened Wrappers

  /** A field value as jOOQ inlines it into the SQL text. */
  datatype SqlValue = SqlValue(text: string)

  /**
   * A Class<*>: `simpleName` (empty for an anonymous class), the `name` of its
   * @TableName annotation when it carries one, and the names of `declaredFields`.
   */
  datatype Entity = Entity(simpleName: string, tableName: Option<string>, fields: seq<string>)

  /** Java field names are non-empty and a class declares each name once. */
  predicate WellFormed(e: Entity) {
    && (forall i :: 0 <= i < |e.fields| ==> |e.fields[i]| > 0)
    && (forall i, j :: 0 <= i < j < |e.fields| ==> e.fields[i] != e.fields[j])
  }

  /** An object: its runtime class and `field.get(obj)` for each declared field. */
  datatype Row = Row(cls: Entity, values: seq<Option<SqlValue>>)

  predicate WellFormedRow(r: Row) {
    WellFormed(r.cls) && |r.values| == |r.cls.fields|
  }
}
