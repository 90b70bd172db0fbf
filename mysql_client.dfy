/**
 * MysqlClient of the common module: `init`'s validation of the mysql section of the
 * configuration and the options it builds, `insert`'s id, and the statement builders,
 * which take table names from common's getTableName (a present annotation verbatim).
 * The pool itself and the test query are not modelled: whether "select 1" succeeds is
 * an input, and the pool is the pair of options it is created with.
 */
module CommonMysqlClient {
  import opened Wrappers
  import opened Text
  import opened Entities
  import opened SqlModel
  import StrUtil
  import CommonAnnotationUtil
  import LegacyMysqlHelper
  import MysqlHelper

  /** Table names come from common's getTableName. */
  const Naming := AnnotationAsIs

  /** `appConfig.database.mysql`. */
  datatype MysqlConfig = MysqlConfig(
    host: string, port: int, username: string, password: string, database: string,
    charset: string, timezone: string,
    maxPoolSize: int, idleTimeout: int, connectionTimeout: int, maxLifetime: int, maxWaitQueueSize: int)

  /** `appConfig.app`: the part the pool name uses. */
  datatype AppInfo = AppInfo(name: string, version: string)

  /** The MySQLConnectOptions init fills in. */
  datatype ConnectOptions = ConnectOptions(
    host: string, port: int, user: string, password: string, database: string,
    charset: string, serverTimezone: string, reconnectAttempts: int, reconnectInterval: int)

  /** The PoolOptions init fills in. */
  datatype PoolOptions = PoolOptions(
    name: string, maxSize: int, idleTimeout: int, connectionTimeout: int, maxLifetime: int, maxWaitQueueSize: int)

  /** A MySQLPool, as the options it was created with. */
  datatype Pool = Pool(connect: ConnectOptions, options: PoolOptions)

  /** The exceptions init throws. */
  datatype InitError = BlankHost | BlankUsername | BlankPassword | BlankDatabase | TestQueryFailed

  const ReconnectAttempts := 30
  const ReconnectInterval := 1000

  function PoolName(app: AppInfo): string {
    "mysql-pool-" + app.name + "-" + app.version
  }

  /**
   * What init throws or stores in `mysqlPoolClient`: the first blank of host, username,
   * password and database, in that order, throws; port, charset and timezone are copied
   * without a check; the retry policy is fixed; a failing test query throws.
   */
  function InitOutcome(config: MysqlConfig, app: AppInfo, testQueryOk: bool): (r: Result<Pool, InitError>)
    ensures r == Err(BlankHost) <==> IsBlank(config.host)
    ensures r == Err(BlankUsername) <==> !IsBlank(config.host) && IsBlank(config.username)
    ensures r == Err(BlankPassword) <==>
      !IsBlank(config.host) && !IsBlank(config.username) && IsBlank(config.password)
    ensures r == Err(BlankDatabase) <==>
      !IsBlank(config.host) && !IsBlank(config.username) && !IsBlank(config.password) && IsBlank(config.database)
    ensures r.Ok? <==>
      !IsBlank(config.host) && !IsBlank(config.username) && !IsBlank(config.password)
      && !IsBlank(config.database) && testQueryOk
    ensures r.Ok? ==>
      && r.value.connect.reconnectAttempts == 30 && r.value.connect.reconnectInterval == 1000
      && r.value.connect.port == config.port && r.value.connect.charset == config.charset
      && r.value.connect.serverTimezone == config.timezone
      && r.value.options.name == "mysql-pool-" + app.name + "-" + app.version
    ensures r.Ok? ==>
      && r.value.connect.host == config.host && r.value.connect.user == config.username
      && r.value.connect.password == config.password && r.value.connect.database == config.database
    ensures r.Ok? ==>
      && r.value.options.maxSize == config.maxPoolSize && r.value.options.idleTimeout == config.idleTimeout
      && r.value.options.connectionTimeout == config.connectionTimeout
      && r.value.options.maxLifetime == config.maxLifetime
      && r.value.options.maxWaitQueueSize == config.maxWaitQueueSize
  {
    if IsBlank(config.host) then Err(BlankHost)
    else if IsBlank(config.username) then Err(BlankUsername)
    else if IsBlank(config.password) then Err(BlankPassword)
    else if IsBlank(config.database) then Err(BlankDatabase)
    else if !testQueryOk then Err(TestQueryFailed)
    else
      Ok(Pool(
        ConnectOptions(config.host, config.port, config.username, config.password, config.database,
                       config.charset, config.timezone, ReconnectAttempts, ReconnectInterval),
        PoolOptions(PoolName(app), config.maxPoolSize, config.idleTimeout, config.connectionTimeout,
                    config.maxLifetime, config.maxWaitQueueSize)))
  }

  /** Port, charset and timezone never decide whether init succeeds. */
  lemma InitIgnoresUncheckedFields(config: MysqlConfig, app: AppInfo, testQueryOk: bool,
                                   port: int, charset: string, timezone: string)
    ensures InitOutcome(config.(port := port, charset := charset, timezone := timezone), app, testQueryOk).Ok?
        == InitOutcome(config, app, testQueryOk).Ok?
  {
  }

  /** The global `mysqlPoolClient`, assigned by init. */
  class Client {
    var pool: Option<Pool>

    constructor()
      ensures pool == None
    {
      pool := None;
    }

    /** init: guards that fill in the options step by step, the test query, then the global. */
    method Init(config: MysqlConfig, app: AppInfo, testQueryOk: bool) returns (r: Result<Pool, InitError>)
      modifies this
      ensures r == InitOutcome(config, app, testQueryOk)
      ensures pool == (if r.Ok? then Some(r.value) else old(pool))
    {
      var connect := ConnectOptions("", 0, "", "", "", "", "", 0, 0);
      if IsBlank(config.host) {
        return Err(BlankHost);
      }
      connect := connect.(host := config.host, port := config.port);
      if IsBlank(config.username) {
        return Err(BlankUsername);
      }
      connect := connect.(user := config.username);
      if IsBlank(config.password) {
        return Err(BlankPassword);
      }
      connect := connect.(password := config.password);
      if IsBlank(config.database) {
        return Err(BlankDatabase);
      }
      connect := connect.(database := config.database, charset := config.charset, serverTimezone := config.timezone);
      connect := connect.(reconnectAttempts := ReconnectAttempts, reconnectInterval := ReconnectInterval);
      var options := PoolOptions(PoolName(app), config.maxPoolSize, config.idleTimeout, config.connectionTimeout,
                                 config.maxLifetime, config.maxWaitQueueSize);
      if !testQueryOk {
        return Err(TestQueryFailed);
      }
      pool := Some(Pool(connect, options));
      r := Ok(Pool(connect, options));
    }
  }

  /** insert: the INSERT, then LAST_INSERTED_ID whatever fields the class declares. */
  function Insert(data: Row, lastInsertedId: int): (r: Result<(Sql, int), SqlError>)
    requires WellFormedRow(data)
    ensures r.Err? <==> TableName(Naming, data.cls).None?
    ensures r.Ok? ==> r.value.1 == lastInsertedId
  {
    match InsertSql(Naming, NonNullNonId, data)
    case Err(e) => Err(e)
    case Ok(sql) => Ok((sql, lastInsertedId))
  }

  /**
   * For a class without an id field this client reports LAST_INSERTED_ID, where the
   * newer MysqlHelper reports 0.
   */
  lemma InsertIdWithoutIdField(lastInsertedId: int)
    requires lastInsertedId != 0
    ensures
      var data := Row(Entity("Log", None, ["message"]), [Some(SqlValue("'hi'"))]);
      && Insert(data, lastInsertedId).Ok? && Insert(data, lastInsertedId).value.1 == lastInsertedId
      && MysqlHelper.Insert(data, lastInsertedId).Ok?
      && MysqlHelper.Insert(data, lastInsertedId).value.1 == 0
  {
    var data := Row(Entity("Log", None, ["message"]), [Some(SqlValue("'hi'"))]);
    assert "id" !in data.cls.fields;
  }

  /** buildInsertSql: the non-null fields other than id, under common's table name. */
  method BuildInsertSql(data: Row) returns (r: Result<Sql, SqlError>)
    requires WellFormedRow(data)
    ensures r == InsertSql(Naming, NonNullNonId, data)
  {
    var m := CollectFields(NonNullNonId, data.cls.fields, data.values);
    var table := TableName(Naming, data.cls);
    if table.None? {
      return Err(EmptyName);
    }
    r := Ok(Rendered(InsertInto(table.value, Keys(m), [Values(m)]), ";"));
  }

  /** buildUpdateSql: the SET map of the update rule under common's table name. */
  method BuildUpdateSql(data: Row, where: Condition, isNll: bool) returns (r: Result<Sql, SqlError>)
    requires WellFormedRow(data)
    ensures r == UpdateSql(Naming, data, where, isNll)
  {
    var m := CollectFields(SetClause(isNll), data.cls.fields, data.values);
    var table := TableName(Naming, data.cls);
    if table.None? {
      return Err(EmptyName);
    }
    r := Ok(Rendered(Update(table.value, m, where), ";"));
  }

  /**
   * A class annotated with a blank name: this client's INSERT goes to the blank table,
   * the mysql module's to the class's underlined name.
   */
  lemma BlankAnnotationInsert()
    ensures
      var data := Row(Entity("UserInfo", Some(" "), []), []);
      && InsertSql(Naming, NonNullNonId, data) == Ok(Rendered(InsertInto(" ", [], [[]]), ";"))
      && InsertSql(LegacyMysqlHelper.Naming, NonNullNonId, data) == Ok(Rendered(InsertInto("user_info", [], [[]]), ";"))
  {
    CommonAnnotationUtil.BlankAnnotationExample();
  }

  /** select(clazz, where, fields): buildSelectSql with no lastSql, so one ";". */
  function Select(e: Entity, where: Condition, fields: seq<string>): (r: Result<Sql, SqlError>)
    requires WellFormed(e)
    ensures r.Ok? ==> r.value.Rendered? && r.value.statement.Select? && r.value.tail == ";"
    ensures r.Err? <==> !NonEmptyNames(fields) || TableName(Naming, e).None?
  {
    SelectSql(Naming, e, where, fields, "")
  }

  /** buildDeleteSql: the rendered statement and one ";". */
  function DeleteText(e: Entity, where: Condition): (r: Result<Sql, SqlError>)
    ensures r.Ok? ==> TableName(Naming, e).Some? && r.value == Rendered(Delete(TableName(Naming, e).value, where), ";")
    ensures r.Err? <==> TableName(Naming, e).None?
  {
    DeleteSql(Naming, e, where, ";")
  }
}
