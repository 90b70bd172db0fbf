/**
 * `getTableName` of common-mysql: the @TableName name when it is present and not
 * blank, otherwise the class's simple name in snake case.
 */
module MysqlAnnotationUtil {
  import opened Wrappers
  import opened Text
  import StrUtil
  import opened Entities

  /** The fallback is taken for a missing or a blank annotation. */
  predicate FallsBack(e: Entity) {
    e.tableName.None? || IsBlank(e.tableName.value)
  }

  /** None where `underlineName` throws: the fallback on an empty simple name. */
  function GetTableName(e: Entity): (r: Option<string>)
    ensures !FallsBack(e) ==> r == e.tableName
    ensures r.None? <==> FallsBack(e) && e.simpleName == []
    ensures FallsBack(e) && r.Some? ==> NoUpper(r.value)
  {
    if FallsBack(e) then
      if e.simpleName == [] then None
      else
        StrUtil.UnderlineNoUpper(e.simpleName);
        Some(StrUtil.UnderlineName(e.simpleName))
    else e.tableName
  }
}
