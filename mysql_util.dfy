/**
 * MysqlUtil of the common module: statement builders that name the table after the
 * class alone, ignoring any @TableName annotation, and whose INSERT keeps id. Its
 * underlineName is common's copy, which agrees with the one the model uses on every
 * non-empty name.
 */
module CommonMysqlUtil {
  import opened Wrappers
  import opened Text
  import opened Entities
  import opened SqlModel
  import StrUtil
  import LegacyMysqlHelper

  /** Table names are underlineName(clazz.simpleName). */
  const Naming := SimpleNameOnly

  /** buildInsertSql: every non-null field, id included. */
  method BuildInsertSql(data: Row) returns (r: Result<Sql, SqlError>)
    requires WellFormedRow(data)
    ensures r == InsertSql(Naming, NonNull, data)
  {
    var m := CollectFields(NonNull, data.cls.fields, data.values);
    var table := TableName(Naming, data.cls);
    if table.None? {
      return Err(EmptyName);
    }
    r := Ok(Rendered(InsertInto(table.value, Keys(m), [Values(m)]), ";"));
  }

  /** A column is inserted iff some field underlines to it and has a value; id is not special. */
  lemma InsertSkipsNullOnly(data: Row, k: string)
    requires WellFormedRow(data) && InsertSql(Naming, NonNull, data).Ok?
    ensures
      var s := InsertSql(Naming, NonNull, data).value.statement;
      s.InsertInto? &&
      (k in s.columns <==> exists i :: 0 <= i < |data.values| && Columns(data.cls.fields)[i] == k && data.values[i].Some?)
  {
    InsertColumns(Naming, NonNull, data, k);
  }

  /** A non-null id is inserted with its value, where the mysql module's builder drops it. */
  lemma InsertKeepsId(data: Row, i: int)
    requires WellFormedRow(data) && InsertSql(Naming, NonNull, data).Ok?
    requires Distinct(Columns(data.cls.fields)) && 0 <= i < |data.values|
    requires Columns(data.cls.fields)[i] == "id" && data.values[i].Some?
    ensures
      var s := InsertSql(Naming, NonNull, data).value.statement;
      exists c :: 0 <= c < |s.columns| && c < |s.rows[0]| && s.columns[c] == "id" && s.rows[0][c] == data.values[i]
    ensures
      InsertSql(LegacyMysqlHelper.Naming, NonNullNonId, data).Ok? ==>
        "id" !in InsertSql(LegacyMysqlHelper.Naming, NonNullNonId, data).value.statement.columns
  {
    InsertValue(Naming, NonNull, data, i);
    if InsertSql(LegacyMysqlHelper.Naming, NonNullNonId, data).Ok? {
      LegacyMysqlHelper.InsertSkipsNullAndId(data, "id");
    }
  }

  /** buildUpdateSql: the SET map of the update rule under the class's own name. */
  method BuildUpdateSql(data: Row, where: Condition, isNll: bool) returns (r: Result<Sql, SqlError>)
    requires WellFormedRow(data)
    ensures r == UpdateSql(Naming, data, where, isNll)
  {
    var m := CollectFields(SetClause(isNll), data.cls.fields, data.values);
    var table := TableName(Naming, data.cls);
    if table.None? {
      return Err(EmptyName);
    }
    r := Ok(Rendered(Update(table.value, m, where), ";"));
  }

  /** The table is the class's underlined name whatever its annotation says. */
  lemma TableIgnoresAnnotation(e: Entity, annotation: Option<string>)
    ensures TableName(Naming, e) == TableName(Naming, e.(tableName := annotation))
    ensures e.simpleName != [] ==> TableName(Naming, e) == Some(StrUtil.UnderlineName(e.simpleName))
  {
  }

  /** A class UserInfo annotated "users": this builder deletes from user_info, the mysql module's from users. */
  lemma AnnotatedDelete(where: Condition)
    ensures DeleteSql(Naming, Entity("UserInfo", Some("users"), []), where, ";")
         == Ok(Rendered(Delete("user_info", where), ";"))
    ensures LegacyMysqlHelper.DeleteText(Entity("UserInfo", Some("users"), []), where)
         == Ok(Rendered(Delete("users", where), ";"))
  {
    StrUtil.UnderlineExamples();
    assert !IsBlank("users") by {
      assert !IsWhitespace("users"[0]);
    }
  }

  /** buildSelectSql: the given columns or every field, " " + lastSql when non-blank, one ";". */
  function SelectText(e: Entity, where: Condition, columns: seq<string>, lastSql: string): (r: Result<Sql, SqlError>)
    requires WellFormed(e)
    ensures r.Err? <==> !NonEmptyNames(columns) || e.simpleName == []
    ensures r.Ok? ==> r.value.Rendered? && r.value.tail == (if IsBlank(lastSql) then ";" else " " + lastSql + ";")
  {
    SelectSql(Naming, e, where, columns, lastSql)
  }

  /** buildDeleteSql: the rendered statement and one ";". */
  function DeleteText(e: Entity, where: Condition): (r: Result<Sql, SqlError>)
    ensures r.Err? <==> e.simpleName == []
    ensures r.Ok? ==> r.value == Rendered(Delete(StrUtil.UnderlineName(e.simpleName), where), ";")
  {
    DeleteSql(Naming, e, where, ";")
  }
}
