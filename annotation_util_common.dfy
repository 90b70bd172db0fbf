/**
 * `getTableName` of the `common` module: the @TableName name whenever the annotation
 * is present, blank or not, otherwise the class's simple name in snake case.
 */
module CommonAnnotationUtil {
  import opened Wrappers
  import opened Text
  import StrUtil
  import opened Entities
  import MysqlAnnotationUtil

  /** None where `underlineName` throws: no annotation and an empty simple name. */
  function GetTableName(e: Entity): (r: Option<string>)
    ensures e.tableName.Some? ==> r == e.tableName
    ensures r.None? <==> e.tableName.None? && e.simpleName == []
    ensures e.tableName.None? && r.Some? ==> NoUpper(r.value)
  {
    match e.tableName
    case Some(name) => Some(name)
    case None =>
      if e.simpleName == [] then None
      else
        StrUtil.UnderlineNoUpper(e.simpleName);
        Some(StrUtil.UnderlineName(e.simpleName))
  }

  /**
   * The two copies agree except on a present but blank annotation, where this one
   * returns the blank name and the common-mysql one falls back to the class name.
   */
  lemma AgreesUnlessBlank(e: Entity)
    ensures !(e.tableName.Some? && IsBlank(e.tableName.value)) ==>
      GetTableName(e) == MysqlAnnotationUtil.GetTableName(e)
    ensures e.tableName.Some? && IsBlank(e.tableName.value) ==>
      GetTableName(e) == e.tableName &&
      (e.simpleName != [] ==> MysqlAnnotationUtil.GetTableName(e) == Some(StrUtil.UnderlineName(e.simpleName)))
  {
  }

  /** @TableName(name = " ") on class UserInfo: table " " here, "user_info" in common-mysql. */
  lemma BlankAnnotationExample()
    ensures GetTableName(Entity("UserInfo", Some(" "), [])) == Some(" ")
    ensures MysqlAnnotationUtil.GetTableName(Entity("UserInfo", Some(" "), [])) == Some("user_info")
  {
    StrUtil.UnderlineExamples();
  }
}
