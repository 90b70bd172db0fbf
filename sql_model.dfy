/**
 * What the four MySQL statement builders share: the LinkedHashMap a builder fills
 * from an object's fields, the rules that decide which fields go in, the statement
 * handed to jOOQ, and the text appended to jOOQ's rendering. jOOQ's rendering itself
 * (`getSQL(ParamType.INLINED)`) is not modelled: a built string is the statement plus
 * the tail the builder appends to it.
 */
module SqlModel {
  import opened Wrappers
  import opened Text
  import StrUtil
  import opened Entities
  import MysqlAnnotationUtil
  import CommonAnnotationUtil

  /** A `mutableMapOf<String, Any?>()` (a LinkedHashMap): entries in insertion order. */
  type Assoc = seq<(string, Option<SqlValue>)>

  function Keys(m: Assoc): (ks: seq<string>)
    ensures |ks| == |m| && forall i :: 0 <= i < |m| ==> ks[i] == m[i].0
  {
    seq(|m|, i requires 0 <= i < |m| => m[i].0)
  }

  function Values(m: Assoc): (vs: seq<Option<SqlValue>>)
    ensures |vs| == |m| && forall i :: 0 <= i < |m| ==> vs[i] == m[i].1
  {
    seq(|m|, i requires 0 <= i < |m| => m[i].1)
  }

  /**
   * `map[k] = v`: a key already present keeps its position and takes the new value,
   * a new key is appended; no other entry changes.
   */
  function Put(m: Assoc, k: string, v: Option<SqlValue>): (r: Assoc)
    ensures k !in Keys(m) ==> r == m + [(k, v)]
    ensures k in Keys(m) ==> Keys(r) == Keys(m)
    ensures (k, v) in r
    ensures forall e :: e in r ==> e in m || e == (k, v)
    decreases |m|
  {
    if |m| == 0 then [(k, v)]
    else if m[0].0 == k then [(k, v)] + m[1..]
    else
      assert Keys(m) == [m[0].0] + Keys(m[1..]);
      [m[0]] + Put(m[1..], k, v)
  }

  /** Which fields a builder copies into its map, and with what value. */
  datatype Rule =
    | AllButId            // every field except id, null values kept
    | NonNullNonId        // non-null fields except id
    | NonNull             // non-null fields, id included
    | SetClause(isNll: bool)  // non-null non-id fields; with isNll every other field as NULL

  /** The entry a field contributes under a rule: None skips it, Some(v) puts v. */
  function Pick(rule: Rule, name: string, value: Option<SqlValue>): Option<Option<SqlValue>> {
    match rule
    case AllButId => if name != "id" then Some(value) else None
    case NonNullNonId => if value.Some? && name != "id" then Some(value) else None
    case NonNull => if value.Some? then Some(value) else None
    case SetClause(isNll) =>
      if value.Some? && name != "id" then Some(value)
      else if isNll then Some(None)
      else None
  }

  predicate NonEmptyNames(names: seq<string>) {
    forall i :: 0 <= i < |names| ==> |names[i]| > 0
  }

  /** `underlineName` of every name, in order. */
  function Columns(names: seq<string>): (cs: seq<string>)
    requires NonEmptyNames(names)
    ensures |cs| == |names|
    ensures forall i :: 0 <= i < |names| ==> cs[i] == StrUtil.UnderlineName(names[i])
  {
    seq(|names|, i requires 0 <= i < |names| && NonEmptyNames(names) => StrUtil.UnderlineName(names[i]))
  }

  /** The map after the builder's loop has put the picked fields, first to last. */
  function FieldMap(rule: Rule, names: seq<string>, values: seq<Option<SqlValue>>): Assoc
    requires |names| == |values|
    decreases |names|
  {
    if |names| == 0 then []
    else
      var n := |names| - 1;
      var m := FieldMap(rule, names[..n], values[..n]);
      match Pick(rule, names[n], values[n])
      case None => m
      case Some(v) => Put(m, names[n], v)
  }

  /** One more field: the map of the first i + 1 fields from the map of the first i. */
  lemma FieldMapStep(rule: Rule, names: seq<string>, values: seq<Option<SqlValue>>, i: int)
    requires |names| == |values| && 0 <= i < |names|
    ensures var m, p := FieldMap(rule, names[..i], values[..i]), Pick(rule, names[i], values[i]);
      FieldMap(rule, names[..i + 1], values[..i + 1]) == if p.None? then m else Put(m, names[i], p.value)
  {
    assert names[..i + 1][..i] == names[..i] && values[..i + 1][..i] == values[..i];
  }

  /** The reference definition: the picked fields, in field order. */
  function Picked(rule: Rule, names: seq<string>, values: seq<Option<SqlValue>>): Assoc
    requires |names| == |values|
    decreases |names|
  {
    if |names| == 0 then []
    else
      var n := |names| - 1;
      Picked(rule, names[..n], values[..n])
      + match Pick(rule, names[n], values[n])
        case None => []
        case Some(v) => [(names[n], v)]
  }

  /** The keys after a put: the old keys and the put one. */
  lemma PutKeys(m: Assoc, k: string, v: Option<SqlValue>, x: string)
    ensures x in Keys(Put(m, k, v)) <==> x in Keys(m) || x == k
  {
    if k !in Keys(m) {
      assert Keys(m + [(k, v)]) == Keys(m) + [k];
    }
  }

  /** A key is in the map iff some field of that name is picked. */
  lemma {:induction false} FieldMapKeys(rule: Rule, names: seq<string>, values: seq<Option<SqlValue>>, k: string)
    requires |names| == |values|
    ensures k in Keys(FieldMap(rule, names, values)) <==>
      exists i :: 0 <= i < |names| && names[i] == k && Pick(rule, names[i], values[i]).Some?
    decreases |names|
  {
    if |names| > 0 {
      var n := |names| - 1;
      var pn, pv := names[..n], values[..n];
      FieldMapKeys(rule, pn, pv, k);
      var m := FieldMap(rule, pn, pv);
      var p := Pick(rule, names[n], values[n]);
      assert FieldMap(rule, names, values) == if p.None? then m else Put(m, names[n], p.value);
      if p.Some? {
        PutKeys(m, names[n], p.value, k);
      }
      PickedSnoc(rule, names, values, pn, pv, k);
    }
  }

  /** Some field of the name is picked iff one of the first n is, or the last one is. */
  lemma PickedSnoc(rule: Rule, names: seq<string>, values: seq<Option<SqlValue>>,
                   pn: seq<string>, pv: seq<Option<SqlValue>>, k: string)
    requires |names| == |values| > 0
    requires pn == names[..|names| - 1] && pv == values[..|values| - 1]
    ensures (exists i :: 0 <= i < |names| && names[i] == k && Pick(rule, names[i], values[i]).Some?) <==>
      (exists i :: 0 <= i < |pn| && pn[i] == k && Pick(rule, pn[i], pv[i]).Some?)
      || (names[|pn|] == k && Pick(rule, names[|pn|], values[|pn|]).Some?)
  {
    if exists i :: 0 <= i < |names| && names[i] == k && Pick(rule, names[i], values[i]).Some? {
      var i :| 0 <= i < |names| && names[i] == k && Pick(rule, names[i], values[i]).Some?;
      if i < |pn| {
        assert pn[i] == k && Pick(rule, pn[i], pv[i]).Some?;
      }
    }
    if exists i :: 0 <= i < |pn| && pn[i] == k && Pick(rule, pn[i], pv[i]).Some? {
      var i :| 0 <= i < |pn| && pn[i] == k && Pick(rule, pn[i], pv[i]).Some?;
      assert names[i] == k && Pick(rule, names[i], values[i]).Some?;
    }
  }

  /** The map never holds a key twice. */
  lemma {:induction false} FieldMapDistinct(rule: Rule, names: seq<string>, values: seq<Option<SqlValue>>)
    requires |names| == |values|
    ensures Distinct(Keys(FieldMap(rule, names, values)))
    decreases |names|
  {
    if |names| > 0 {
      var n := |names| - 1;
      var pn, pv := names[..n], values[..n];
      FieldMapDistinct(rule, pn, pv);
      var m := FieldMap(rule, pn, pv);
      var p := Pick(rule, names[n], values[n]);
      FieldMapStep(rule, names, values, n);
      assert names[..n + 1] == names && values[..n + 1] == values;
      if p.Some? {
        PutDistinct(m, names[n], p.value);
      }
    }
  }

  /** A put never duplicates a key. */
  lemma PutDistinct(m: Assoc, k: string, v: Option<SqlValue>)
    requires Distinct(Keys(m))
    ensures Distinct(Keys(Put(m, k, v)))
  {
    if k !in Keys(m) {
      assert Keys(m + [(k, v)]) == Keys(m) + [k];
      DistinctAppend(Keys(m), k);
    }
  }

  /** With distinct field names the map is exactly the picked fields in field order. */
  lemma {:induction false} FieldMapIsPicked(rule: Rule, names: seq<string>, values: seq<Option<SqlValue>>)
    requires |names| == |values| && Distinct(names)
    ensures FieldMap(rule, names, values) == Picked(rule, names, values)
    decreases |names|
  {
    if |names| > 0 {
      var n := |names| - 1;
      assert Distinct(names[..n]);
      FieldMapIsPicked(rule, names[..n], values[..n]);
      FieldMapKeys(rule, names[..n], values[..n], names[n]);
    }
  }

  /** An entry is in the reference map iff it comes from a picked field. */
  lemma {:induction false} PickedMember(rule: Rule, names: seq<string>, values: seq<Option<SqlValue>>,
                                       k: string, v: Option<SqlValue>)
    requires |names| == |values|
    ensures (k, v) in Picked(rule, names, values) <==>
      exists i :: 0 <= i < |names| && names[i] == k && Pick(rule, names[i], values[i]) == Some(v)
    decreases |names|
  {
    if |names| > 0 {
      var n := |names| - 1;
      PickedMember(rule, names[..n], values[..n], k, v);
      if exists i :: 0 <= i < |names| && names[i] == k && Pick(rule, names[i], values[i]) == Some(v) {
        var i :| 0 <= i < |names| && names[i] == k && Pick(rule, names[i], values[i]) == Some(v);
        if i < n {
          assert names[..n][i] == k && values[..n][i] == values[i];
        }
      }
    }
  }

  /** Without the null rule the columns depend only on the field names, not on the values. */
  lemma {:induction false} AllButIdKeys(names: seq<string>, v1: seq<Option<SqlValue>>, v2: seq<Option<SqlValue>>)
    requires |names| == |v1| == |v2|
    ensures Keys(FieldMap(AllButId, names, v1)) == Keys(FieldMap(AllButId, names, v2))
    decreases |names|
  {
    if |names| > 0 {
      var n := |names| - 1;
      AllButIdKeys(names[..n], v1[..n], v2[..n]);
      var m1 := FieldMap(AllButId, names[..n], v1[..n]);
      var m2 := FieldMap(AllButId, names[..n], v2[..n]);
      if names[n] != "id" && names[n] !in Keys(m1) {
        assert Keys(m1 + [(names[n], v1[n])]) == Keys(m1) + [names[n]];
        assert Keys(m2 + [(names[n], v2[n])]) == Keys(m2) + [names[n]];
      }
    }
  }

  /** The builders' loop over `declaredFields`: underline the name, read the value, put it if the rule picks it. */
  method CollectFields(rule: Rule, fields: seq<string>, values: seq<Option<SqlValue>>) returns (m: Assoc)
    requires NonEmptyNames(fields) && |fields| == |values|
    ensures m == FieldMap(rule, Columns(fields), values)
  {
    ghost var names := Columns(fields);
    m := [];
    for i := 0 to |fields|
      invariant m == FieldMap(rule, names[..i], values[..i])
    {
      var name := StrUtil.UnderlineName(fields[i]);
      assert name == names[i];
      FieldMapStep(rule, names, values, i);
      var picked := Pick(rule, name, values[i]);
      if picked.Some? {
        m := Put(m, name, picked.value);
      }
    }
    assert names[..|fields|] == names && values[..|fields|] == values;
  }

  /** A jOOQ Condition, passed through to the WHERE clause. */
  datatype Condition = Condition(text: string)

  /** The jOOQ query a builder renders. */
  datatype Statement =
    | InsertInto(table: string, columns: seq<string>, rows: seq<seq<Option<SqlValue>>>)
    | Update(table: string, assignments: Assoc, where: Condition)
    | Select(columns: seq<string>, table: string, where: Condition)
    | SelectCount(table: string, where: Condition)
    | Delete(table: string, where: Condition)

  /** A built SQL string: "" or jOOQ's rendering of a statement followed by the builder's tail. */
  datatype Sql = NoSql | Rendered(statement: Statement, tail: string)

  /** The exceptions a builder can throw. */
  datatype SqlError =
    | EmptyName       // underlineName on "" (an anonymous class, an empty column name)
    | ForeignObject   // field.get on an object of another class

  /** Which getTableName a builder calls. */
  datatype Naming =
    | AnnotationUnlessBlank   // common-mysql's getTableName
    | AnnotationAsIs          // common's getTableName
    | SimpleNameOnly          // underlineName(clazz.simpleName)

  function TableName(naming: Naming, e: Entity): (r: Option<string>)
    ensures r.None? ==> e.simpleName == []
  {
    match naming
    case AnnotationUnlessBlank => MysqlAnnotationUtil.GetTableName(e)
    case AnnotationAsIs => CommonAnnotationUtil.GetTableName(e)
    case SimpleNameOnly => StrUtil.TryUnderlineName(e.simpleName)
  }

  /** `if (lastSql.isNotBlank()) finalSql += " $lastSql"`. */
  function LastSqlSuffix(lastSql: string): string {
    if IsBlank(lastSql) then "" else " " + lastSql
  }

  /** A single-object INSERT: one VALUES row holding the map's values under its keys. */
  function InsertSql(naming: Naming, rule: Rule, row: Row): Result<Sql, SqlError>
    requires WellFormedRow(row)
  {
    var m := FieldMap(rule, Columns(row.cls.fields), row.values);
    match TableName(naming, row.cls)
    case None => Err(EmptyName)
    case Some(t) => Ok(Rendered(InsertInto(t, Keys(m), [Values(m)]), ";"))
  }

  /** An UPDATE: the SET map of the update rule and the caller's condition. */
  function UpdateSql(naming: Naming, row: Row, where: Condition, isNll: bool): Result<Sql, SqlError>
    requires WellFormedRow(row)
  {
    var m := FieldMap(SetClause(isNll), Columns(row.cls.fields), row.values);
    match TableName(naming, row.cls)
    case None => Err(EmptyName)
    case Some(t) => Ok(Rendered(Update(t, m, where), ";"))
  }

  /** A SELECT of the given columns, or of every declared field when none are given. */
  function SelectSql(naming: Naming, e: Entity, where: Condition, columns: seq<string>, lastSql: string)
    : (r: Result<Sql, SqlError>)
    requires WellFormed(e)
    ensures r.Err? <==> !NonEmptyNames(columns) || TableName(naming, e).None?
    ensures r.Ok? ==>
      && r.value.Rendered? && r.value.statement.Select?
      && |r.value.statement.columns| == (if |columns| > 0 then |columns| else |e.fields|)
      && r.value.tail == (if IsBlank(lastSql) then ";" else " " + lastSql + ";")
  {
    if !NonEmptyNames(columns) then Err(EmptyName)
    else
      var cols := if |columns| > 0 then Columns(columns) else Columns(e.fields);
      match TableName(naming, e)
      case None => Err(EmptyName)
      case Some(t) => Ok(Rendered(Select(cols, t, where), LastSqlSuffix(lastSql) + ";"))
  }

  /** A DELETE, followed by whatever the builder appends. */
  function DeleteSql(naming: Naming, e: Entity, where: Condition, tail: string): Result<Sql, SqlError> {
    match TableName(naming, e)
    case None => Err(EmptyName)
    case Some(t) => Ok(Rendered(Delete(t, where), tail))
  }

  /** With distinct names, a picked field is in the map with its picked value and a skipped one is not. */
  lemma FieldMapEntry(rule: Rule, names: seq<string>, values: seq<Option<SqlValue>>, i: int)
    requires |names| == |values| && Distinct(names) && 0 <= i < |names|
    ensures Pick(rule, names[i], values[i]).Some? ==>
      (names[i], Pick(rule, names[i], values[i]).value) in FieldMap(rule, names, values)
    ensures Pick(rule, names[i], values[i]).None? ==> names[i] !in Keys(FieldMap(rule, names, values))
  {
    FieldMapIsPicked(rule, names, values);
    FieldMapKeys(rule, names, values, names[i]);
    if Pick(rule, names[i], values[i]).Some? {
      PickedMember(rule, names, values, names[i], Pick(rule, names[i], values[i]).value);
    }
  }

  /**
   * A single-object INSERT has one VALUES row as long as its column list, and its
   * columns are exactly the underlined names of the fields the rule picks.
   */
  lemma InsertColumns(naming: Naming, rule: Rule, row: Row, k: string)
    requires WellFormedRow(row) && InsertSql(naming, rule, row).Ok?
    ensures InsertSql(naming, rule, row).value.Rendered?
    ensures
      var s := InsertSql(naming, rule, row).value.statement;
      && s.InsertInto? && |s.rows| == 1 && |s.rows[0]| == |s.columns|
      && (k in s.columns <==>
          exists i :: 0 <= i < |row.values| && Columns(row.cls.fields)[i] == k
            && Pick(rule, Columns(row.cls.fields)[i], row.values[i]).Some?)
  {
    FieldMapKeys(rule, Columns(row.cls.fields), row.values, k);
  }

  /** With distinct column names, a picked field's value sits under its own column. */
  lemma InsertValue(naming: Naming, rule: Rule, row: Row, i: int)
    requires WellFormedRow(row) && InsertSql(naming, rule, row).Ok?
    requires Distinct(Columns(row.cls.fields)) && 0 <= i < |row.values|
    requires Pick(rule, Columns(row.cls.fields)[i], row.values[i]).Some?
    ensures
      var s := InsertSql(naming, rule, row).value.statement;
      exists c :: 0 <= c < |s.columns| && c < |s.rows[0]| && s.columns[c] == Columns(row.cls.fields)[i]
        && s.rows[0][c] == Pick(rule, Columns(row.cls.fields)[i], row.values[i]).value
  {
    var names := Columns(row.cls.fields);
    var m := FieldMap(rule, names, row.values);
    FieldMapEntry(rule, names, row.values, i);
    var c :| 0 <= c < |m| && m[c] == (names[i], Pick(rule, names[i], row.values[i]).value);
    assert Keys(m)[c] == names[i] && Values(m)[c] == m[c].1;
  }

  /**
   * The SET clause of an UPDATE: with isNll a column for every field, otherwise only for
   * the non-null fields other than id.
   */
  lemma UpdateColumns(naming: Naming, row: Row, where: Condition, isNll: bool, k: string)
    requires WellFormedRow(row) && UpdateSql(naming, row, where, isNll).Ok?
    ensures UpdateSql(naming, row, where, isNll).value.Rendered?
    ensures
      var s := UpdateSql(naming, row, where, isNll).value.statement;
      && s.Update? && s.where == where
      && (k in Keys(s.assignments) <==>
          exists i :: 0 <= i < |row.values| && Columns(row.cls.fields)[i] == k
            && (isNll || (row.values[i].Some? && k != "id")))
  {
    var names := Columns(row.cls.fields);
    assert UpdateSql(naming, row, where, isNll).value.statement.assignments == FieldMap(SetClause(isNll), names, row.values);
    SetClauseKeys(isNll, names, row.values, k);
  }

  /** The SET map holds a column iff some field of that name is non-null and not id, or isNll. */
  lemma SetClauseKeys(isNll: bool, names: seq<string>, values: seq<Option<SqlValue>>, k: string)
    requires |names| == |values|
    ensures k in Keys(FieldMap(SetClause(isNll), names, values)) <==>
      exists i :: 0 <= i < |values| && names[i] == k && (isNll || (values[i].Some? && k != "id"))
  {
    FieldMapKeys(SetClause(isNll), names, values, k);
    if k in Keys(FieldMap(SetClause(isNll), names, values)) {
      var i :| 0 <= i < |names| && names[i] == k && Pick(SetClause(isNll), names[i], values[i]).Some?;
      assert isNll || (values[i].Some? && k != "id");
    }
    if exists i :: 0 <= i < |values| && names[i] == k && (isNll || (values[i].Some? && k != "id")) {
      var i :| 0 <= i < |values| && names[i] == k && (isNll || (values[i].Some? && k != "id"));
      assert Pick(SetClause(isNll), names[i], values[i]).Some?;
    }
  }

  /**
   * With distinct column names, a non-null non-id field is set to its value; with isNll,
   * id and every null field are set to NULL.
   */
  lemma UpdateValue(naming: Naming, row: Row, where: Condition, isNll: bool, i: int)
    requires WellFormedRow(row) && UpdateSql(naming, row, where, isNll).Ok?
    requires Distinct(Columns(row.cls.fields)) && 0 <= i < |row.values|
    ensures
      var s := UpdateSql(naming, row, where, isNll).value.statement;
      var name := Columns(row.cls.fields)[i];
      && (row.values[i].Some? && name != "id" ==> (name, row.values[i]) in s.assignments)
      && (isNll && (row.values[i].None? || name == "id") ==> (name, None) in s.assignments)
  {
    var names := Columns(row.cls.fields);
    assert UpdateSql(naming, row, where, isNll).value.statement.assignments == FieldMap(SetClause(isNll), names, row.values);
    SetClauseEntry(isNll, names, row.values, i);
  }

  lemma SetClauseEntry(isNll: bool, names: seq<string>, values: seq<Option<SqlValue>>, i: int)
    requires |names| == |values| && Distinct(names) && 0 <= i < |names|
    ensures values[i].Some? && names[i] != "id" ==> (names[i], values[i]) in FieldMap(SetClause(isNll), names, values)
    ensures isNll && (values[i].None? || names[i] == "id") ==> (names[i], None) in FieldMap(SetClause(isNll), names, values)
  {
    FieldMapEntry(SetClause(isNll), names, values, i);
  }

  /** Kotlin's Int: values in [-2^31, 2^31). */
  predicate IsInt(x: int) { -0x8000_0000 <= x < 0x8000_0000 }

  /** Int arithmetic and Long.toInt(): the low 32 bits, two's complement. */
  function ToInt(x: int): (r: int)
    ensures IsInt(r)
    ensures IsInt(x) ==> r == x
    ensures (r - x) % 0x1_0000_0000 == 0
  {
    (x + 0x8000_0000) % 0x1_0000_0000 - 0x8000_0000
  }

  function DigitChar(d: int): char
    requires 0 <= d < 10
  {
    "0123456789"[d]
  }

  function Digits(n: nat): (s: string)
    ensures |s| > 0
  {
    if n < 10 then [DigitChar(n)] else Digits(n / 10) + [DigitChar(n % 10)]
  }

  /** An Int in a string template. */
  function Decimal(n: int): string {
    if n < 0 then "-" + Digits(-n) else Digits(n)
  }
}
