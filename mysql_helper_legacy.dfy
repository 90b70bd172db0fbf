/**
 * The MysqlHelper of the mysql module: single-object INSERT and UPDATE builders that
 * skip null values and id, the SELECT and DELETE builders, `select` and `selectPage`.
 * Queries are not executed; a SELECT that would run is returned as its built string.
 */
module LegacyMysqlHelper {
  import opened Wrappers
  import opened Text
  import opened Entities
  import opened SqlModel

  /** Table names come from common-mysql's getTableName. */
  const Naming := AnnotationUnlessBlank

  /** buildInsertSql: the non-null fields other than id, one VALUES row, one ";". */
  method BuildInsertSql(data: Row) returns (r: Result<Sql, SqlError>)
    requires WellFormedRow(data)
    ensures r == InsertSql(Naming, NonNullNonId, data)
  {
    var m := CollectFields(NonNullNonId, data.cls.fields, data.values);
    var table := TableName(Naming, data.cls);
    if table.None? {
      return Err(EmptyName);
    }
    r := Ok(Rendered(InsertInto(table.value, Keys(m), [Values(m)]), ";"));
  }

  /** A column is inserted iff some field underlines to it, has a value and is not id. */
  lemma InsertSkipsNullAndId(data: Row, k: string)
    requires WellFormedRow(data) && InsertSql(Naming, NonNullNonId, data).Ok?
    ensures
      var s := InsertSql(Naming, NonNullNonId, data).value.statement;
      && s.InsertInto?
      && (k in s.columns <==>
          exists i :: 0 <= i < |data.values| && Columns(data.cls.fields)[i] == k && data.values[i].Some? && k != "id")
      && "id" !in s.columns
  {
    InsertColumns(Naming, NonNullNonId, data, k);
    InsertColumns(Naming, NonNullNonId, data, "id");
  }

  /** buildUpdateSql: the SET map of the update rule, the caller's condition, one ";". */
  method BuildUpdateSql(data: Row, where: Condition, isNll: bool) returns (r: Result<Sql, SqlError>)
    requires WellFormedRow(data)
    ensures r == UpdateSql(Naming, data, where, isNll)
  {
    var m := CollectFields(SetClause(isNll), data.cls.fields, data.values);
    var table := TableName(Naming, data.cls);
    if table.None? {
      return Err(EmptyName);
    }
    r := Ok(Rendered(Update(table.value, m, where), ";"));
  }

  /** select(clazz, where, fields, lastSql): lastSql never reaches the query, which ends in one ";". */
  function Select(e: Entity, where: Condition, fields: seq<string>, lastSql: string): (r: Result<Sql, SqlError>)
    requires WellFormed(e)
    ensures r.Ok? ==> r.value.Rendered? && r.value.statement.Select? && r.value.tail == ";"
    ensures r.Err? <==> !NonEmptyNames(fields) || TableName(Naming, e).None?
  {
    SelectSql(Naming, e, where, fields, "")
  }

  /** The lastSql selectPage passes: " limit <(page - 1) * pageSize>,<pageSize>" in Int arithmetic. */
  function LimitClause(page: int, pageSize: int): string {
    " limit " + Decimal(ToInt((page - 1) * pageSize)) + "," + Decimal(pageSize)
  }

  /**
   * What selectPage runs: None is the empty list returned without a query, for a
   * non-blank lastSql (checked first), page < 1 or pageSize < 1; otherwise the SELECT
   * ends in a space, the limit clause (which has its own leading space) and ";".
   */
  function SelectPage(e: Entity, where: Condition, fields: seq<string>, page: int, pageSize: int, lastSql: string)
    : (r: Result<Option<Sql>, SqlError>)
    requires WellFormed(e) && IsInt(page) && IsInt(pageSize)
    ensures r == Ok(None) <==> !IsBlank(lastSql) || page < 1 || pageSize < 1
    ensures r.Ok? && r.value.Some? ==>
      r.value.value.Rendered? && r.value.value.tail == " " + LimitClause(page, pageSize) + ";"
    ensures r.Err? <==> IsBlank(lastSql) && page >= 1 && pageSize >= 1 && (!NonEmptyNames(fields) || TableName(Naming, e).None?)
  {
    if !IsBlank(lastSql) then Ok(None)
    else if page < 1 then Ok(None)
    else if pageSize < 1 then Ok(None)
    else
      assert LimitClause(page, pageSize)[1] == 'l';
      match SelectSql(Naming, e, where, fields, LimitClause(page, pageSize))
      case Err(x) => Err(x)
      case Ok(sql) => Ok(Some(sql))
  }

  /** Without overflow the clause's offset is (page - 1) * pageSize. */
  lemma LimitClauseValue(page: int, pageSize: int)
    requires page >= 1 && pageSize >= 1 && (page - 1) * pageSize < 0x8000_0000
    ensures LimitClause(page, pageSize) == " limit " + Decimal((page - 1) * pageSize) + "," + Decimal(pageSize)
  {
    var offset := (page - 1) * pageSize;
    assert 0 <= offset;
    assert ToInt(offset) == offset;
  }

  /** buildDeleteSql: the rendered statement and one ";". */
  function DeleteText(e: Entity, where: Condition): (r: Result<Sql, SqlError>)
    ensures r.Ok? ==> TableName(Naming, e).Some? && r.value == Rendered(Delete(TableName(Naming, e).value, where), ";")
    ensures r.Err? <==> TableName(Naming, e).None?
  {
    DeleteSql(Naming, e, where, ";")
  }
}
