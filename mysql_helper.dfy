/**
 * MysqlHelper of vertx-common-mysql-kt: the batch INSERT builder, the UPDATE, SELECT,
 * COUNT and DELETE builders, `insert`'s id rule, the chunked batch transactions and
 * `selectPage`'s paging arithmetic. Queries are not executed: the database's answers
 * (row counts, LAST_INSERTED_ID, the count row) are inputs, and the connection and
 * transaction calls are recorded as effects.
 */
module MysqlHelper {
  import opened Wrappers
  import opened Text
  import opened Entities
  import opened SqlModel

  /** Table names come from common-mysql's getTableName. */
  const Naming := AnnotationUnlessBlank

  predicate AllWellFormed(rows: seq<Row>) {
    forall i :: 0 <= i < |rows| ==> WellFormedRow(rows[i])
  }

  /**
   * The values `field.get(item)` reads through the first item's class. A foreign
   * object throws on the first field, so it is only read when there is no field.
   */
  function ItemValues(cls: Entity, item: Row): seq<Option<SqlValue>> {
    if item.cls == cls then item.values else []
  }

  /** Some item is of another class than the first, and there is a field to read it with. */
  predicate Foreign(cls: Entity, items: seq<Row>) {
    |cls.fields| > 0 && exists i :: 0 <= i < |items| && items[i].cls != cls
  }

  /** One item's map: every field but id, null values kept. */
  function ItemMap(cls: Entity, item: Row): Assoc {
    var vs := ItemValues(cls, item);
    if NonEmptyNames(cls.fields) && |vs| == |cls.fields| then FieldMap(AllButId, Columns(cls.fields), vs) else []
  }

  /** The map of every item. */
  function Maps(cls: Entity, items: seq<Row>): (ms: seq<Assoc>)
    ensures |ms| == |items|
  {
    if |items| == 0 then [] else Maps(cls, items[..|items| - 1]) + [ItemMap(cls, items[|items| - 1])]
  }

  lemma MapsSnoc(cls: Entity, items: seq<Row>, k: int)
    requires 0 <= k < |items|
    ensures Maps(cls, items[..k + 1]) == Maps(cls, items[..k]) + [ItemMap(cls, items[k])]
  {
    assert items[..k + 1][..k] == items[..k];
  }

  lemma MapsStep(cls: Entity, items: seq<Row>, k: int, ms: seq<Assoc>, m: Assoc)
    requires 0 <= k < |items| && ms == Maps(cls, items[..k]) && m == ItemMap(cls, items[k])
    ensures ms + [m] == Maps(cls, items[..k + 1])
  {
    MapsSnoc(cls, items, k);
  }

  lemma {:induction false} MapsAt(cls: Entity, items: seq<Row>, i: int)
    requires 0 <= i < |items|
    ensures Maps(cls, items)[i] == ItemMap(cls, items[i])
    decreases |items|
  {
    if i < |items| - 1 {
      MapsAt(cls, items[..|items| - 1], i);
    }
  }

  lemma ItemMapIs(cls: Entity, item: Row)
    requires WellFormed(cls) && WellFormedRow(item) && (item.cls == cls || cls.fields == [])
    ensures NonEmptyNames(cls.fields) && |ItemValues(cls, item)| == |cls.fields|
    ensures ItemMap(cls, item) == FieldMap(AllButId, Columns(cls.fields), ItemValues(cls, item))
  {
  }

  /** The VALUES rows: each map's values in its own order. */
  function RowValues(maps: seq<Assoc>): (rows: seq<seq<Option<SqlValue>>>)
    ensures |rows| == |maps| && forall i :: 0 <= i < |maps| ==> rows[i] == Values(maps[i])
  {
    seq(|maps|, i requires 0 <= i < |maps| => Values(maps[i]))
  }

  /** What buildInsertSql(dataList) returns or throws. */
  function InsertBatchSql(dataList: seq<Row>): (r: Result<Sql, SqlError>)
    requires AllWellFormed(dataList)
    ensures r == Ok(NoSql) <==> dataList == []
  {
    if |dataList| == 0 then Ok(NoSql)
    else
      var cls := dataList[0].cls;
      if Foreign(cls, dataList) then Err(ForeignObject)
      else
        var maps := Maps(cls, dataList);
        match TableName(Naming, cls)
        case None => Err(EmptyName)
        case Some(t) => Ok(Rendered(InsertInto(t, Keys(maps[0]), RowValues(maps)), ";"))
  }

  /** One item's map, collected field by field. */
  method CollectItem(cls: Entity, item: Row) returns (m: Assoc)
    requires WellFormed(cls) && WellFormedRow(item) && (item.cls == cls || cls.fields == [])
    ensures m == ItemMap(cls, item)
  {
    ItemMapIs(cls, item);
    m := CollectFields(AllButId, cls.fields, ItemValues(cls, item));
  }

  /** The loop over the items: each item's map, read through the first item's fields. */
  method CollectItems(cls: Entity, dataList: seq<Row>) returns (maps: Option<seq<Assoc>>)
    requires WellFormed(cls) && AllWellFormed(dataList)
    ensures maps.None? <==> Foreign(cls, dataList)
    ensures maps.Some? ==> maps.value == Maps(cls, dataList)
  {
    var ms: seq<Assoc> := [];
    for k := 0 to |dataList|
      invariant forall i :: 0 <= i < k ==> dataList[i].cls == cls || |cls.fields| == 0
      invariant ms == Maps(cls, dataList[..k])
    {
      var item := dataList[k];
      if item.cls != cls && |cls.fields| > 0 {
        ForeignAt(cls, dataList, k);
        return None;
      }
      assert WellFormedRow(item) && (item.cls == cls || cls.fields == []);
      var m := CollectItem(cls, item);
      MapsStep(cls, dataList, k, ms, m);
      ms := ms + [m];
      assert forall i :: 0 <= i < k + 1 ==> dataList[i].cls == cls || |cls.fields| == 0;
      assert ms == Maps(cls, dataList[..k + 1]);
    }
    assert dataList[..|dataList|] == dataList;
    NotForeign(cls, dataList);
    maps := Some(ms);
  }

  /** An item of another class, with a field to read it through, makes the list foreign. */
  lemma ForeignAt(cls: Entity, items: seq<Row>, k: int)
    requires 0 <= k < |items| && items[k].cls != cls && |cls.fields| > 0
    ensures Foreign(cls, items)
  {
  }

  /** A list whose items all share the class, or a class without fields, is not foreign. */
  lemma NotForeign(cls: Entity, items: seq<Row>)
    requires forall i :: 0 <= i < |items| ==> items[i].cls == cls || |cls.fields| == 0
    ensures !Foreign(cls, items)
  {
  }

  /** buildInsertSql: one map per item, the first map's keys as columns, one VALUES row per map. */
  method BuildInsertSql(dataList: seq<Row>) returns (r: Result<Sql, SqlError>)
    requires AllWellFormed(dataList)
    ensures r == InsertBatchSql(dataList)
  {
    if |dataList| == 0 {
      return Ok(NoSql);
    }
    var cls := dataList[0].cls;
    var collected := CollectItems(cls, dataList);
    if collected.None? {
      InsertBatchSqlFails(dataList);
      return Err(ForeignObject);
    }
    var maps := collected.value;
    var table := TableName(Naming, cls);
    if table.None? {
      InsertBatchSqlFails(dataList);
      return Err(EmptyName);
    }
    var rows := CollectRows(maps);
    r := Ok(Rendered(InsertInto(table.value, Keys(maps[0]), rows), ";"));
    InsertBatchSqlBuilt(dataList, table.value);
  }

  /** The VALUES rows, map by map. */
  method CollectRows(maps: seq<Assoc>) returns (rows: seq<seq<Option<SqlValue>>>)
    ensures rows == RowValues(maps)
  {
    rows := [];
    for k := 0 to |maps|
      invariant |rows| == k && forall i :: 0 <= i < k ==> rows[i] == Values(maps[i])
    {
      rows := rows + [Values(maps[k])];
    }
  }

  lemma InsertBatchSqlFails(dataList: seq<Row>)
    requires AllWellFormed(dataList) && |dataList| > 0
    ensures Foreign(dataList[0].cls, dataList) ==> InsertBatchSql(dataList) == Err(ForeignObject)
    ensures !Foreign(dataList[0].cls, dataList) && TableName(Naming, dataList[0].cls).None? ==>
      InsertBatchSql(dataList) == Err(EmptyName)
  {
  }

  lemma InsertBatchSqlBuilt(dataList: seq<Row>, t: string)
    requires AllWellFormed(dataList) && |dataList| > 0 && !Foreign(dataList[0].cls, dataList)
    requires TableName(Naming, dataList[0].cls) == Some(t)
    ensures
      var maps := Maps(dataList[0].cls, dataList);
      InsertBatchSql(dataList) == Ok(Rendered(InsertInto(t, Keys(maps[0]), RowValues(maps)), ";"))
  {
  }

  /**
   * Every VALUES row has one value per column, and id is never a column: each item
   * contributes every field but id, null or not.
   */
  lemma InsertBatchShape(dataList: seq<Row>)
    requires AllWellFormed(dataList) && InsertBatchSql(dataList).Ok? && |dataList| > 0
    ensures InsertBatchSql(dataList).value.Rendered?
    ensures InsertBatchSql(dataList).value.tail == ";"
    ensures
      var s := InsertBatchSql(dataList).value.statement;
      && s.InsertInto?
      && |s.rows| == |dataList|
      && (forall i :: 0 <= i < |s.rows| ==> |s.rows[i]| == |s.columns|)
      && "id" !in s.columns
  {
    var cls := dataList[0].cls;
    var names := Columns(cls.fields);
    forall i | 0 <= i < |dataList|
      ensures Keys(Maps(cls, dataList)[i]) == Keys(Maps(cls, dataList)[0])
    {
      MapsAt(cls, dataList, i);
      MapsAt(cls, dataList, 0);
      AllButIdKeys(names, ItemValues(cls, dataList[i]), ItemValues(cls, dataList[0]));
    }
    MapsAt(cls, dataList, 0);
    ItemMapIs(cls, dataList[0]);
    FieldMapKeys(AllButId, names, ItemValues(cls, dataList[0]), "id");
  }

  /**
   * With distinct column names, every non-id field of every item is inserted under its
   * column with its own value, null included.
   */
  lemma InsertBatchKeepsNulls(dataList: seq<Row>, i: int, j: int)
    requires AllWellFormed(dataList) && InsertBatchSql(dataList).Ok? && |dataList| > 0
    requires 0 <= i < |dataList| && 0 <= j < |dataList[0].cls.fields|
    requires Distinct(Columns(dataList[0].cls.fields))
    requires Columns(dataList[0].cls.fields)[j] != "id"
    ensures
      var s := InsertBatchSql(dataList).value.statement;
      exists c :: 0 <= c < |s.columns| && s.columns[c] == Columns(dataList[0].cls.fields)[j]
        && i < |s.rows| && c < |s.rows[i]| && s.rows[i][c] == dataList[i].values[j]
  {
    var cls := dataList[0].cls;
    var names := Columns(cls.fields);
    var vs := ItemValues(cls, dataList[i]);
    assert dataList[i].cls == cls;
    FieldMapIsPicked(AllButId, names, vs);
    PickedMember(AllButId, names, vs, names[j], vs[j]);
    var m := ItemMap(cls, dataList[i]);
    MapsAt(cls, dataList, i);
    MapsAt(cls, dataList, 0);
    assert (names[j], vs[j]) in m;
    var c :| 0 <= c < |m| && m[c] == (names[j], vs[j]);
    AllButIdKeys(names, vs, ItemValues(cls, dataList[0]));
    assert Keys(m)[c] == names[j];
  }

  /** What `insert` reports: LAST_INSERTED_ID when the class declares a field named exactly "id", else 0. */
  function InsertedId(data: Row, lastInsertedId: int): (id: int)
    ensures "id" !in data.cls.fields ==> id == 0
    ensures "id" in data.cls.fields ==> id == lastInsertedId
  {
    if "id" in data.cls.fields then lastInsertedId else 0
  }

  /** insert(data): the one-item batch INSERT, then the id rule. */
  function Insert(data: Row, lastInsertedId: int): (r: Result<(Sql, int), SqlError>)
    requires WellFormedRow(data)
  {
    match InsertBatchSql([data])
    case Err(e) => Err(e)
    case Ok(sql) => Ok((sql, InsertedId(data, lastInsertedId)))
  }

  /**
   * A field "Id" becomes column "id" and is left out of the INSERT, yet
   * getDeclaredField("id") does not find it, so insert reports 0.
   */
  lemma InsertIdNeedsExactName(lastInsertedId: int)
    requires lastInsertedId != 0
    ensures Insert(Row(Entity("User", None, ["Id"]), [None]), lastInsertedId).Ok?
    ensures Insert(Row(Entity("User", None, ["Id"]), [None]), lastInsertedId).value.1 == 0
  {
  }

  /** What buildUpdateSql returns: the SET map of the update rule over the object's own class. */
  method BuildUpdateSql(data: Row, where: Condition, isNll: bool) returns (r: Result<Sql, SqlError>)
    requires WellFormedRow(data)
    ensures r == UpdateSql(Naming, data, where, isNll)
  {
    var m := CollectFields(SetClause(isNll), data.cls.fields, data.values);
    var table := TableName(Naming, data.cls);
    if table.None? {
      return Err(EmptyName);
    }
    r := Ok(Rendered(Update(table.value, m, where), ";"));
  }

  /** buildDeleteSql: the rendered statement already ends in ";" and another one is appended. */
  function DeleteSqlText(e: Entity, where: Condition): (r: Result<Sql, SqlError>)
    ensures r.Ok? ==> r.value.Rendered? && r.value.tail == ";;"
    ensures r.Err? <==> TableName(Naming, e).None?
  {
    DeleteSql(Naming, e, where, ";" + ";")
  }

  /** buildCountSql: jOOQ's selectCount with nothing appended. */
  function CountSql(e: Entity, where: Condition): (r: Result<Sql, SqlError>)
    ensures r.Ok? ==> r.value.Rendered? && r.value.statement.SelectCount? && r.value.tail == ""
    ensures r.Err? <==> TableName(Naming, e).None?
  {
    match TableName(Naming, e)
    case None => Err(EmptyName)
    case Some(t) => Ok(Rendered(SelectCount(t, where), ""))
  }

  /** select(clazz, where, fields, lastSql): the SELECT builder with the caller's lastSql. */
  function SelectQuery(e: Entity, where: Condition, fields: seq<string>, lastSql: string): Result<Sql, SqlError>
    requires WellFormed(e)
  {
    SelectSql(Naming, e, where, fields, lastSql)
  }

  /** CollUtil.split: consecutive chunks of `size` items, the last one possibly shorter. */
  function Chunks<T>(xs: seq<T>, size: nat): (cs: seq<seq<T>>)
    requires size >= 1
    ensures forall i :: 0 <= i < |cs| ==> 1 <= |cs[i]| <= size
    ensures forall i :: 0 <= i < |cs| - 1 ==> |cs[i]| == size
    decreases |xs|
  {
    if |xs| == 0 then []
    else if |xs| <= size then [xs]
    else [xs[..size]] + Chunks(xs[size..], size)
  }

  /** The chunks, put back together, are the list. */
  lemma {:induction false} ChunksFlatten<T>(xs: seq<T>, size: nat)
    requires size >= 1
    ensures Flatten(Chunks(xs, size)) == xs
    decreases |xs|
  {
    if |xs| == 0 {
    } else if |xs| <= size {
      assert Flatten([xs]) == xs + Flatten([]);
    } else {
      ChunksFlatten(xs[size..], size);
      FlattenCons(xs[..size], Chunks(xs[size..], size));
      assert xs[..size] + xs[size..] == xs;
    }
  }

  function Flatten<T>(cs: seq<seq<T>>): seq<T> {
    if |cs| == 0 then [] else cs[0] + Flatten(cs[1..])
  }

  lemma FlattenCons<T>(c: seq<T>, cs: seq<seq<T>>)
    ensures Flatten([c] + cs) == c + Flatten(cs)
  {
    assert ([c] + cs)[1..] == cs;
  }

  lemma {:induction false} FlattenSnoc<T>(cs: seq<seq<T>>, c: seq<T>)
    ensures Flatten(cs + [c]) == Flatten(cs) + c
    decreases |cs|
  {
    if |cs| == 0 {
      assert Flatten([c]) == c + Flatten([]);
    } else {
      FlattenSnoc(cs[1..], c);
      assert (cs + [c])[1..] == cs[1..] + [c];
    }
  }

  /** A connection or transaction call. */
  datatype DbEffect = Connect | Begin | Query(sql: Sql) | Commit | Rollback | Close

  /** The count and the queries of the try block, and whether it threw. */
  datatype Run = Run(count: int, queries: seq<DbEffect>, failed: bool)

  /**
   * The try block's loop over its statements: a statement that could not be built
   * throws before its query; a query whose reply is None threw; otherwise its row
   * count is added.
   */
  function RunQueries(jobs: seq<Result<Sql, SqlError>>, replies: seq<Option<int>>): Run
    requires |replies| == |jobs|
    decreases |jobs|
  {
    if |jobs| == 0 then Run(0, [], false)
    else
      var n := |jobs| - 1;
      var prev := RunQueries(jobs[..n], replies[..n]);
      if prev.failed then prev
      else
        match jobs[n]
        case Err(_) => Run(prev.count, prev.queries, true)
        case Ok(sql) =>
          match replies[n]
          case None => Run(prev.count, prev.queries + [Query(sql)], true)
          case Some(rows) => Run(prev.count + rows, prev.queries + [Query(sql)], false)
  }

  /** The statement at index i could not be built or its query threw. */
  predicate FailsAt(jobs: seq<Result<Sql, SqlError>>, replies: seq<Option<int>>, i: int)
    requires |replies| == |jobs| && 0 <= i < |jobs|
  {
    jobs[i].Err? || replies[i].None?
  }

  function SumReplies(replies: seq<Option<int>>): int {
    if |replies| == 0 then 0 else SumReplies(replies[..|replies| - 1]) + replies[|replies| - 1].GetOr(0)
  }

  /** The block throws iff some statement fails. */
  lemma {:induction false} RunQueriesFails(jobs: seq<Result<Sql, SqlError>>, replies: seq<Option<int>>)
    requires |replies| == |jobs|
    ensures RunQueries(jobs, replies).failed <==> exists i :: 0 <= i < |jobs| && FailsAt(jobs, replies, i)
    decreases |jobs|
  {
    if |jobs| > 0 {
      var n := |jobs| - 1;
      PrefixFails(jobs, replies, n);
      RunQueriesFails(jobs[..n], replies[..n]);
      if !RunQueries(jobs[..n], replies[..n]).failed {
        assert RunQueries(jobs, replies).failed == FailsAt(jobs, replies, n);
      }
    }
  }

  /** A prefix fails where the whole list does. */
  lemma PrefixFails(jobs: seq<Result<Sql, SqlError>>, replies: seq<Option<int>>, n: int)
    requires |replies| == |jobs| && 0 <= n <= |jobs|
    ensures forall i :: 0 <= i < n ==> FailsAt(jobs[..n], replies[..n], i) == FailsAt(jobs, replies, i)
  {
  }

  /** The count is the sum of the row counts before the first failing statement. */
  lemma {:induction false} RunQueriesCount(jobs: seq<Result<Sql, SqlError>>, replies: seq<Option<int>>, k: int)
    requires |replies| == |jobs| && 0 <= k <= |jobs|
    requires forall i :: 0 <= i < k ==> !FailsAt(jobs, replies, i)
    requires k < |jobs| ==> FailsAt(jobs, replies, k)
    ensures RunQueries(jobs, replies).count == SumReplies(replies[..k])
    decreases |jobs|
  {
    if |jobs| > 0 {
      var n := |jobs| - 1;
      PrefixFails(jobs, replies, n);
      RunQueriesFails(jobs[..n], replies[..n]);
      if k <= n {
        assert replies[..n][..k] == replies[..k];
        RunQueriesCount(jobs[..n], replies[..n], k);
        if k < n {
          assert FailsAt(jobs[..n], replies[..n], k);
          assert RunQueries(jobs[..n], replies[..n]).failed;
        } else {
          assert FailsAt(jobs, replies, n);
        }
      } else {
        RunQueriesCount(jobs[..n], replies[..n], n);
        assert replies[..n][..n] == replies[..n];
        assert !RunQueries(jobs[..n], replies[..n]).failed;
        assert !FailsAt(jobs, replies, n);
        assert jobs[n].Ok? && replies[n].Some?;
        assert replies[..k] == replies;
        assert SumReplies(replies) == SumReplies(replies[..n]) + replies[n].GetOr(0);
        assert RunQueries(jobs, replies).count == RunQueries(jobs[..n], replies[..n]).count + replies[n].value;
      }
    }
  }

  /** How a batch call ended: the count it returns and the effects it issued. */
  datatype BatchRun = BatchRun(count: int, effects: seq<DbEffect>)

  /**
   * The transaction around a non-empty batch: a connection from the pool unless the
   * caller gave one, begin, the queries, commit or (when the block threw) rollback,
   * then close, whoever opened the connection.
   */
  function Transaction(haveConnection: bool, run: Run): BatchRun {
    BatchRun(run.count,
      (if haveConnection then [] else [Connect]) + [Begin] + run.queries
      + [if run.failed then Rollback else Commit] + [Close])
  }

  /** The INSERT statements of a batch: one per chunk. */
  function InsertJobs(chunks: seq<seq<Row>>): (jobs: seq<Result<Sql, SqlError>>)
    requires forall c :: 0 <= c < |chunks| ==> AllWellFormed(chunks[c])
    ensures |jobs| == |chunks|
    ensures forall c :: 0 <= c < |chunks| ==> jobs[c] == InsertBatchSql(chunks[c])
  {
    seq(|chunks|, c requires 0 <= c < |chunks| && AllWellFormed(chunks[c]) => InsertBatchSql(chunks[c]))
  }

  lemma ChunksWellFormed(data: seq<Row>, batchSize: int)
    requires AllWellFormed(data) && batchSize >= 1
    ensures forall c :: 0 <= c < |Chunks(data, batchSize)| ==> AllWellFormed(Chunks(data, batchSize)[c])
  {
    var cs := Chunks(data, batchSize);
    ChunksFlatten(data, batchSize);
    forall c, i | 0 <= c < |cs| && 0 <= i < |cs[c]|
      ensures WellFormedRow(cs[c][i])
    {
      FlattenMember(cs, c, i);
    }
  }

  lemma {:induction false} FlattenMember<T>(cs: seq<seq<T>>, c: int, i: int)
    requires 0 <= c < |cs| && 0 <= i < |cs[c]|
    ensures cs[c][i] in Flatten(cs)
    decreases |cs|
  {
    if c > 0 {
      FlattenMember(cs[1..], c - 1, i);
    }
  }

  /** What insertBatch returns and does, given each chunk query's reply. */
  function InsertBatchRun(data: seq<Row>, batchSize: int, haveConnection: bool, replies: seq<Option<int>>): BatchRun
    requires AllWellFormed(data) && batchSize >= 1
    requires |replies| == |Chunks(data, batchSize)|
  {
    if |data| == 0 then BatchRun(0, [])
    else
      ChunksWellFormed(data, batchSize);
      Transaction(haveConnection, RunQueries(InsertJobs(Chunks(data, batchSize)), replies))
  }

  /** insertBatch: the loop over the chunks inside the transaction. */
  method InsertBatch(data: seq<Row>, batchSize: int, haveConnection: bool, replies: seq<Option<int>>)
    returns (r: BatchRun)
    requires AllWellFormed(data) && batchSize >= 1
    requires |replies| == |Chunks(data, batchSize)|
    ensures r == InsertBatchRun(data, batchSize, haveConnection, replies)
  {
    if |data| == 0 {
      return BatchRun(0, []);
    }
    var lists := Chunks(data, batchSize);
    ChunksWellFormed(data, batchSize);
    ghost var jobs := InsertJobs(lists);
    var effects := if haveConnection then [] else [Connect];
    effects := effects + [Begin];
    var count := 0;
    var queries: seq<DbEffect> := [];
    var failed := false;
    var k := 0;
    while k < |lists|
      invariant 0 <= k <= |lists|
      invariant !failed ==> RunQueries(jobs[..k], replies[..k]) == Run(count, queries, false)
      invariant failed ==> RunQueries(jobs, replies) == Run(count, queries, true)
      invariant failed ==> k == |lists|
    {
      var querySql := BuildInsertSql(lists[k]);
      assert querySql == jobs[k];
      RunQueriesSnoc(jobs, replies, k);
      if querySql.Err? {
        failed := true;
      } else {
        queries := queries + [Query(querySql.value)];
        if replies[k].None? {
          failed := true;
        } else {
          count := count + replies[k].value;
        }
      }
      if failed {
        RunQueriesStops(jobs, replies, k + 1);
        k := |lists|;
      } else {
        k := k + 1;
      }
    }
    assert jobs[..|lists|] == jobs && replies[..|lists|] == replies;
    effects := effects + queries + [if failed then Rollback else Commit] + [Close];
    r := BatchRun(count, effects);
  }

  /** One more statement of the try block, after a prefix that did not throw. */
  lemma RunQueriesSnoc(jobs: seq<Result<Sql, SqlError>>, replies: seq<Option<int>>, k: int)
    requires |replies| == |jobs| && 0 <= k < |jobs|
    ensures var prev := RunQueries(jobs[..k], replies[..k]);
      RunQueries(jobs[..k + 1], replies[..k + 1]) ==
        if prev.failed then prev
        else if jobs[k].Err? then Run(prev.count, prev.queries, true)
        else if replies[k].None? then Run(prev.count, prev.queries + [Query(jobs[k].value)], true)
        else Run(prev.count + replies[k].value, prev.queries + [Query(jobs[k].value)], false)
  {
    assert jobs[..k + 1][..k] == jobs[..k] && replies[..k + 1][..k] == replies[..k];
  }

  /** Once the block has thrown, later statements change nothing. */
  lemma {:induction false} RunQueriesStops(jobs: seq<Result<Sql, SqlError>>, replies: seq<Option<int>>, k: int)
    requires |replies| == |jobs| && 0 <= k <= |jobs|
    requires RunQueries(jobs[..k], replies[..k]).failed
    ensures RunQueries(jobs, replies) == RunQueries(jobs[..k], replies[..k])
    decreases |jobs| - k
  {
    if k < |jobs| {
      assert jobs[..k + 1][..k] == jobs[..k] && replies[..k + 1][..k] == replies[..k];
      RunQueriesStops(jobs, replies, k + 1);
    } else {
      assert jobs[..k] == jobs && replies[..k] == replies;
    }
  }

  /** Flatten splits at any chunk boundary. */
  lemma {:induction false} FlattenSplit<T>(cs: seq<seq<T>>, c: int)
    requires 0 <= c <= |cs|
    ensures Flatten(cs) == Flatten(cs[..c]) + Flatten(cs[c..])
    decreases c
  {
    if c > 0 {
      FlattenSplit(cs[1..], c - 1);
      assert cs[1..][..c - 1] == cs[..c][1..];
      assert cs[1..][c - 1..] == cs[c..];
    }
  }

  /** The UPDATE statements of a batch: one per item, all with the same condition. */
  function UpdateJobs(data: seq<Row>, where: Condition, isNll: bool): (jobs: seq<Result<Sql, SqlError>>)
    requires AllWellFormed(data)
    ensures |jobs| == |data|
    ensures forall i :: 0 <= i < |data| ==> jobs[i] == UpdateSql(Naming, data[i], where, isNll)
  {
    seq(|data|, i requires 0 <= i < |data| && AllWellFormed(data) => UpdateSql(Naming, data[i], where, isNll))
  }

  /**
   * What updateBatch returns or throws, given each item query's reply. The statements
   * are all built before the connection is taken, so a build failure escapes with no
   * connection or transaction; the chunk size changes nothing.
   */
  function UpdateBatchRun(data: seq<Row>, where: Condition, isNll: bool, haveConnection: bool,
                          replies: seq<Option<int>>): Result<BatchRun, SqlError>
    requires AllWellFormed(data) && |replies| == |data|
  {
    if |data| == 0 then Ok(BatchRun(0, []))
    else
      var jobs := UpdateJobs(data, where, isNll);
      if exists i :: 0 <= i < |jobs| && jobs[i].Err? then Err(EmptyName)
      else Ok(Transaction(haveConnection, RunQueries(jobs, replies)))
  }

  /** The first loop of updateBatch: every statement, built before any connection. */
  method BuildUpdates(data: seq<Row>, where: Condition, isNll: bool) returns (sqls: Option<seq<Sql>>)
    requires AllWellFormed(data)
    ensures sqls.None? <==> exists i :: 0 <= i < |data| && UpdateJobs(data, where, isNll)[i].Err?
    ensures sqls.Some? ==>
      |sqls.value| == |data| && forall i :: 0 <= i < |data| ==> UpdateJobs(data, where, isNll)[i] == Ok(sqls.value[i])
  {
    ghost var jobs := UpdateJobs(data, where, isNll);
    var sqlList: seq<Sql> := [];
    for i := 0 to |data|
      invariant |sqlList| == i && forall j :: 0 <= j < i ==> jobs[j] == Ok(sqlList[j])
    {
      var sql := BuildUpdateSql(data[i], where, isNll);
      assert jobs[i] == sql;
      if sql.Err? {
        return None;
      }
      sqlList := sqlList + [sql.value];
      assert forall j :: 0 <= j < i + 1 ==> jobs[j] == Ok(sqlList[j]);
    }
    assert forall j :: 0 <= j < |data| ==> !jobs[j].Err?;
    return Some(sqlList);
  }

  /** The inner loop of updateBatch: the queries of one chunk, which starts at statement pos. */
  method RunChunk(ghost jobs: seq<Result<Sql, SqlError>>, replies: seq<Option<int>>, pos: int, list: seq<Sql>,
                  count0: int, queries0: seq<DbEffect>) returns (count: int, queries: seq<DbEffect>, failed: bool)
    requires |replies| == |jobs| && 0 <= pos && pos + |list| <= |jobs|
    requires forall j :: 0 <= j < |list| ==> jobs[pos + j] == Ok(list[j])
    requires RunQueries(jobs[..pos], replies[..pos]) == Run(count0, queries0, false)
    ensures !failed ==> RunQueries(jobs[..pos + |list|], replies[..pos + |list|]) == Run(count, queries, false)
    ensures failed ==> RunQueries(jobs, replies) == Run(count, queries, true)
  {
    count, queries, failed := count0, queries0, false;
    var j := 0;
    while j < |list| && !failed
      invariant 0 <= j <= |list|
      invariant !failed ==> RunQueries(jobs[..pos + j], replies[..pos + j]) == Run(count, queries, false)
      invariant failed ==> RunQueries(jobs, replies) == Run(count, queries, true)
      decreases |list| - j, if failed then 0 else 1
    {
      var k := pos + j;
      assert jobs[..k + 1][..k] == jobs[..k] && replies[..k + 1][..k] == replies[..k];
      queries := queries + [Query(list[j])];
      if replies[k].None? {
        failed := true;
        RunQueriesStops(jobs, replies, k + 1);
      } else {
        count := count + replies[k].value;
        j := j + 1;
      }
    }
  }

  /** updateBatch: build every statement, then run them chunk by chunk in one transaction. */
  method UpdateBatch(data: seq<Row>, where: Condition, isNll: bool, batchSize: int, haveConnection: bool,
                     replies: seq<Option<int>>) returns (r: Result<BatchRun, SqlError>)
    requires AllWellFormed(data) && batchSize >= 1 && |replies| == |data|
    ensures r == UpdateBatchRun(data, where, isNll, haveConnection, replies)
  {
    if |data| == 0 {
      return Ok(BatchRun(0, []));
    }
    ghost var jobs := UpdateJobs(data, where, isNll);
    var built := BuildUpdates(data, where, isNll);
    if built.None? {
      return Err(EmptyName);
    }
    var sqlList := built.value;
    var lists := Chunks(sqlList, batchSize);
    ChunksFlatten(sqlList, batchSize);
    var effects := if haveConnection then [] else [Connect];
    effects := effects + [Begin];
    var run := RunChunks(jobs, replies, lists, sqlList);
    effects := effects + run.queries + [if run.failed then Rollback else Commit] + [Close];
    r := Ok(BatchRun(run.count, effects));
  }

  /** The outer loop of updateBatch, over the chunks of the built statements. */
  method RunChunks(ghost jobs: seq<Result<Sql, SqlError>>, replies: seq<Option<int>>, lists: seq<seq<Sql>>,
                   ghost sqlList: seq<Sql>) returns (run: Run)
    requires |replies| == |jobs| == |sqlList| && Flatten(lists) == sqlList
    requires forall i :: 0 <= i < |sqlList| ==> jobs[i] == Ok(sqlList[i])
    ensures run == RunQueries(jobs, replies)
  {
    var count := 0;
    var queries: seq<DbEffect> := [];
    var failed := false;
    var c := 0;
    var pos := 0;
    while c < |lists| && !failed
      invariant 0 <= c <= |lists| && 0 <= pos <= |sqlList|
      invariant !failed ==> Flatten(lists[..c]) == sqlList[..pos]
      invariant !failed ==> RunQueries(jobs[..pos], replies[..pos]) == Run(count, queries, false)
      invariant failed ==> RunQueries(jobs, replies) == Run(count, queries, true)
      decreases |lists| - c, if failed then 0 else 1
    {
      var list := lists[c];
      ChunkAt(lists, sqlList, c, pos);
      JobsOfChunk(jobs, sqlList, pos, list);
      count, queries, failed := RunChunk(jobs, replies, pos, list, count, queries);
      if !failed {
        pos := pos + |list|;
      }
      c := c + 1;
    }
    if !failed {
      assert lists[..|lists|] == lists;
      assert jobs[..pos] == jobs && replies[..pos] == replies;
    }
    run := Run(count, queries, failed);
  }

  lemma JobsOfChunk(jobs: seq<Result<Sql, SqlError>>, sqls: seq<Sql>, pos: int, list: seq<Sql>)
    requires |jobs| == |sqls| && forall i :: 0 <= i < |sqls| ==> jobs[i] == Ok(sqls[i])
    requires 0 <= pos && pos + |list| <= |sqls| && sqls[pos..pos + |list|] == list
    ensures forall j :: 0 <= j < |list| ==> jobs[pos + j] == Ok(list[j])
  {
    forall j | 0 <= j < |list|
      ensures jobs[pos + j] == Ok(list[j])
    {
      assert list[j] == sqls[pos..pos + |list|][j];
    }
  }

  /** Chunk c starts where the chunks before it end. */
  lemma ChunkAt<T>(lists: seq<seq<T>>, xs: seq<T>, c: int, pos: int)
    requires 0 <= c < |lists| && Flatten(lists) == xs && 0 <= pos <= |xs| && Flatten(lists[..c]) == xs[..pos]
    ensures pos + |lists[c]| <= |xs| && xs[pos..pos + |lists[c]|] == lists[c]
    ensures Flatten(lists[..c + 1]) == xs[..pos + |lists[c]|]
  {
    FlattenSplit(lists, c);
    FlattenCons(lists[c], lists[c + 1..]);
    assert lists[c..] == [lists[c]] + lists[c + 1..];
    FlattenSnoc(lists[..c], lists[c]);
    assert lists[..c + 1] == lists[..c] + [lists[c]];
    assert xs[..pos] + lists[c] == xs[..pos + |lists[c]|];
  }

  /** An empty batch returns 0 and touches no connection. */
  lemma EmptyBatch(where: Condition, isNll: bool, batchSize: int, haveConnection: bool)
    requires batchSize >= 1
    ensures InsertBatchRun([], batchSize, haveConnection, []) == BatchRun(0, [])
    ensures UpdateBatchRun([], where, isNll, haveConnection, []) == Ok(BatchRun(0, []))
  {
  }

  /**
   * A non-empty batch commits iff no statement failed, always ends by closing the
   * connection (also one the caller passed in), and returns the row counts summed up
   * to the first failure, which a rollback does not undo.
   */
  lemma TransactionOutcome(haveConnection: bool, jobs: seq<Result<Sql, SqlError>>, replies: seq<Option<int>>, k: int)
    requires |replies| == |jobs| && 0 <= k <= |jobs|
    requires forall i :: 0 <= i < k ==> !FailsAt(jobs, replies, i)
    requires k < |jobs| ==> FailsAt(jobs, replies, k)
    ensures
      var run := Transaction(haveConnection, RunQueries(jobs, replies));
      && run.count == SumReplies(replies[..k])
      && run.effects[|run.effects| - 1] == Close
      && run.effects[|run.effects| - 2] == (if k < |jobs| then Rollback else Commit)
      && (Connect in run.effects <==> !haveConnection)
  {
    RunQueriesCount(jobs, replies, k);
    RunQueriesFails(jobs, replies);
    RunQueriesNoConnect(jobs, replies);
  }

  /** The statement insertBatch builds for chunk c. */
  function ChunkSql(data: seq<Row>, batchSize: int, c: int): Result<Sql, SqlError>
    requires AllWellFormed(data) && batchSize >= 1 && 0 <= c < |Chunks(data, batchSize)|
  {
    ChunksWellFormed(data, batchSize);
    InsertBatchSql(Chunks(data, batchSize)[c])
  }

  /** TransactionOutcome for insertBatch: chunks before k succeed, chunk k (if any) fails. */
  lemma InsertBatchOutcome(data: seq<Row>, batchSize: int, haveConnection: bool, replies: seq<Option<int>>, k: int)
    requires AllWellFormed(data) && batchSize >= 1 && |data| > 0
    requires |replies| == |Chunks(data, batchSize)|
    requires 0 <= k <= |replies|
    requires forall c :: 0 <= c < k ==> ChunkSql(data, batchSize, c).Ok? && replies[c].Some?
    requires k < |replies| ==> ChunkSql(data, batchSize, k).Err? || replies[k].None?
    ensures
      var run := InsertBatchRun(data, batchSize, haveConnection, replies);
      && run.count == SumReplies(replies[..k])
      && run.effects[|run.effects| - 1] == Close
      && run.effects[|run.effects| - 2] == (if k < |replies| then Rollback else Commit)
      && (Connect in run.effects <==> !haveConnection)
  {
    ChunksWellFormed(data, batchSize);
    var jobs := InsertJobs(Chunks(data, batchSize));
    forall c | 0 <= c < k
      ensures !FailsAt(jobs, replies, c)
    {
      assert jobs[c] == ChunkSql(data, batchSize, c);
    }
    TransactionOutcome(haveConnection, jobs, replies, k);
  }

  /** TransactionOutcome for updateBatch once its statements are built. */
  lemma UpdateBatchOutcome(data: seq<Row>, where: Condition, isNll: bool, haveConnection: bool,
                           replies: seq<Option<int>>, k: int)
    requires AllWellFormed(data) && |data| > 0 && |replies| == |data|
    requires forall i :: 0 <= i < |data| ==> UpdateSql(Naming, data[i], where, isNll).Ok?
    requires 0 <= k <= |replies|
    requires forall i :: 0 <= i < k ==> replies[i].Some?
    requires k < |replies| ==> replies[k].None?
    ensures UpdateBatchRun(data, where, isNll, haveConnection, replies).Ok?
    ensures
      var run := UpdateBatchRun(data, where, isNll, haveConnection, replies).value;
      && run.count == SumReplies(replies[..k])
      && run.effects[|run.effects| - 1] == Close
      && run.effects[|run.effects| - 2] == (if k < |replies| then Rollback else Commit)
      && (Connect in run.effects <==> !haveConnection)
  {
    var jobs := UpdateJobs(data, where, isNll);
    TransactionOutcome(haveConnection, jobs, replies, k);
  }

  /** An UPDATE that cannot be built escapes before any connection or transaction. */
  lemma UpdateBatchBuildFailure(data: seq<Row>, where: Condition, isNll: bool, haveConnection: bool,
                                replies: seq<Option<int>>, i: int)
    requires AllWellFormed(data) && |replies| == |data|
    requires 0 <= i < |data| && UpdateSql(Naming, data[i], where, isNll).Err?
    ensures UpdateBatchRun(data, where, isNll, haveConnection, replies) == Err(EmptyName)
  {
    assert UpdateJobs(data, where, isNll)[i].Err?;
  }

  /** The try block issues queries only. */
  lemma {:induction false} RunQueriesNoConnect(jobs: seq<Result<Sql, SqlError>>, replies: seq<Option<int>>)
    requires |replies| == |jobs|
    ensures forall q :: q in RunQueries(jobs, replies).queries ==> q.Query?
    decreases |jobs|
  {
    if |jobs| > 0 {
      RunQueriesNoConnect(jobs[..|jobs| - 1], replies[..|jobs| - 1]);
    }
  }

  /** PageResult(page, pageSize, total, totalPages); the rows themselves are left out. */
  datatype PageResult = PageResult(page: int, pageSize: int, total: int, totalPages: int)

  /** The SELECT and COUNT queries selectPage runs and the PageResult it returns. */
  datatype PageQuery = PageQuery(select: Sql, count: Sql, result: PageResult)

  /** The Int offset of a page: (page - 1) * pageSize, wrapping at 32 bits. */
  function PageOffset(page: int, pageSize: int): int {
    ToInt((page - 1) * pageSize)
  }

  /** The lastSql selectPage passes to buildSelectSql. */
  function PageClause(page: int, pageSize: int): string {
    " order by id desc limit " + Decimal(PageOffset(page, pageSize)) + "," + Decimal(pageSize)
  }

  /** `(count / pageSize).toInt() + 1` in Long and then Int arithmetic. */
  function TotalPages(total: int, pageSize: int): int
    requires pageSize >= 1 && total >= 0
  {
    ToInt(ToInt(total / pageSize) + 1)
  }

  /** What selectPage returns (None is the null result) or throws, given the count row. */
  function SelectPage(e: Entity, where: Condition, fields: seq<string>, page: int, pageSize: int, total: int)
    : (r: Result<Option<PageQuery>, SqlError>)
    requires WellFormed(e) && IsInt(page) && IsInt(pageSize) && 0 <= total < 0x8000_0000_0000_0000
    ensures r == Ok(None) <==> page < 1 || pageSize < 1
    ensures r.Ok? && r.value.Some? ==> r.value.value.count.Rendered? && r.value.value.count.tail == ""
  {
    if page < 1 then Ok(None)
    else if pageSize < 1 then Ok(None)
    else
      match SelectSql(Naming, e, where, fields, PageClause(page, pageSize))
      case Err(x) => Err(x)
      case Ok(select) =>
        match CountSql(e, where)
        case Err(x) => Err(x)
        case Ok(count) => Ok(Some(PageQuery(select, count, PageResult(page, pageSize, total, TotalPages(total, pageSize)))))
  }

  lemma PageClauseNotBlank(page: int, pageSize: int)
    ensures !IsBlank(PageClause(page, pageSize))
  {
    assert PageClause(page, pageSize)[1] == 'o';
  }

  /**
   * The SELECT of a page ends in a space, its clause and ";": with the clause's own
   * leading space, "  order by id desc limit <offset>,<pageSize>;".
   */
  lemma SelectPageTail(e: Entity, where: Condition, fields: seq<string>, page: int, pageSize: int, total: int)
    requires WellFormed(e) && IsInt(page) && IsInt(pageSize) && 0 <= total < 0x8000_0000_0000_0000
    requires page >= 1 && pageSize >= 1
    requires SelectPage(e, where, fields, page, pageSize, total).Ok?
    ensures
      var q := SelectPage(e, where, fields, page, pageSize, total).value.value;
      q.select.Rendered? && q.select.tail == " " + PageClause(page, pageSize) + ";"
  {
    PageClauseNotBlank(page, pageSize);
  }

  /** Without overflow the offset in the clause is (page - 1) * pageSize. */
  lemma PageClauseValue(page: int, pageSize: int)
    requires page >= 1 && pageSize >= 1 && (page - 1) * pageSize < 0x8000_0000
    ensures PageClause(page, pageSize) ==
      " order by id desc limit " + Decimal((page - 1) * pageSize) + "," + Decimal(pageSize)
  {
    var offset := (page - 1) * pageSize;
    assert 0 <= offset;
    assert PageOffset(page, pageSize) == offset;
  }

  /** Page 2^30 + 1 of size 4 overflows to offset 0 and queries the first page again. */
  lemma PageOffsetOverflow()
    ensures PageOffset(0x4000_0001, 4) == 0
  {
  }

  /** While count / pageSize fits an Int, totalPages is count / pageSize + 1. */
  lemma TotalPagesValue(total: int, pageSize: int)
    requires pageSize >= 1 && 0 <= total && total / pageSize < 0x7FFF_FFFF
    ensures TotalPages(total, pageSize) == total / pageSize + 1
  {
  }

  /**
   * As written: a count that is an exact multiple k * pageSize reports k + 1 pages, and
   * page k + 1 starts at offset count, past the last row.
   */
  lemma TotalPagesExtraPage(k: int, pageSize: int)
    requires k >= 1 && pageSize >= 1 && k * pageSize < 0x7FFF_FFFF
    ensures TotalPages(k * pageSize, pageSize) == k + 1
    ensures PageOffset(k + 1, pageSize) == k * pageSize
  {
    DivExact(k, pageSize);
  }

  lemma DivExact(k: int, s: int)
    requires k >= 0 && s >= 1
    ensures (k * s) / s == k
  {
    var q, r := (k * s) / s, (k * s) % s;
    assert k * s == q * s + r && 0 <= r < s;
    assert (k - q) * s == r;
    MulAtLeast(k - q, s);
  }

  /** A non-zero multiple of s is at least s away from zero. */
  lemma {:induction false} MulAtLeast(x: int, s: int)
    requires s >= 1
    ensures x >= 1 ==> x * s >= s
    ensures x <= -1 ==> x * s <= -s
    decreases if x < 0 then -x else x
  {
    if x > 1 {
      MulAtLeast(x - 1, s);
      assert x * s == (x - 1) * s + s;
    } else if x < -1 {
      MulAtLeast(x + 1, s);
      assert x * s == (x + 1) * s - s;
    }
  }

  /** The page count that was evidently meant: ceil(count / pageSize). */
  function PagesNeeded(total: int, pageSize: int): (p: int)
    requires pageSize >= 1 && total >= 0
    ensures total == 0 ==> p == 0
    ensures total > 0 ==> (p - 1) * pageSize < total <= p * pageSize
  {
    var p := (total + pageSize - 1) / pageSize;
    var r := (total + pageSize - 1) % pageSize;
    assert total + pageSize - 1 == p * pageSize + r && 0 <= r < pageSize;
    assert (p - 1) * pageSize == p * pageSize - pageSize;
    p
  }

  /** The corrected count of an exact multiple k * pageSize is k: every page has rows. */
  lemma PagesNeededExact(k: int, pageSize: int)
    requires k >= 1 && pageSize >= 1
    ensures PagesNeeded(k * pageSize, pageSize) == k
  {
    var p := PagesNeeded(k * pageSize, pageSize);
    assert (p - 1) * pageSize < k * pageSize <= p * pageSize;
    assert (p - k) * pageSize == p * pageSize - k * pageSize;
    assert (p - 1 - k) * pageSize == (p - 1) * pageSize - k * pageSize;
    MulAtLeast(p - k, pageSize);
    MulAtLeast(p - 1 - k, pageSize);
  }

  /** buildDeleteSql as evidently intended: one ";" after the rendered statement. */
  function DeleteSqlOnce(e: Entity, where: Condition): (r: Result<Sql, SqlError>)
    ensures r.Ok? ==> TableName(Naming, e).Some? && r.value == Rendered(Delete(TableName(Naming, e).value, where), ";")
    ensures r.Err? <==> TableName(Naming, e).None?
  {
    DeleteSql(Naming, e, where, ";")
  }

  /** As written, every DELETE ends in ";;". */
  lemma DeleteEndsTwice(e: Entity, where: Condition)
    requires e.simpleName != []
    ensures DeleteSqlText(e, where).Ok?
    ensures DeleteSqlText(e, where).value.tail == ";;"
    ensures DeleteSqlOnce(e, where).value.tail == ";"
  {
  }
}
