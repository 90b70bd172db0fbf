# vertx-example core, modelled in Dafny

This project models the reusable core of the vertx-example libraries, and the example
request interceptor that uses them. The modelled parts are:

- the camelCase-to-snake_case name conversion (`underlineName`) and both copies of `getTableName`;
- the MySQL statement builders of three generations (the `mysql` and `vertx-common-mysql-kt` `MysqlHelper`, and `common`'s `MysqlClient` and `MysqlUtil`);
- the batch transactions and the paging arithmetic of the newest `MysqlHelper`;
- both RabbitMQ helpers: queue naming, queue and exchange registration, the two send paths, and the consumer's per-delivery state machine with its retry ledger;
- the event-bus service registry and `call`;
- the configuration loader's duplicate-address scan and environment choice;
- the launcher's `-active=` handling;
- the cron task's start/re-arm loop;
- the Basic-auth request interceptor.

Each Kotlin or Java file becomes one Dafny module. Shared types live in `Wrappers`,
`Text`, `Entities`, `SqlModel` and `MqContract`.

Code that changes state keeps that form:
- an object that updates its fields becomes a class with `modifies`: the RabbitMQ
  helper objects, the bus registry, the configuration globals, the launcher, the
  MySQL client and the cron `TaskOptions`;
- a loop becomes a method with loop invariants.

Each method is proved against a specification function. The properties are proved as
lemmas about that function. Broker, database and transaction calls are recorded in an
effect log instead of being performed. What the outside world answers is a parameter.
This covers:
- a broker confirm;
- a query's row count;
- a JSON mapping;
- the user's handler;
- Base64 decoding;
- the Redis hash.

Characters are ASCII: upper-case means `A`-`Z`. Kotlin `Int` arithmetic that can
overflow is written out as 32-bit two's-complement wrap-around (`SqlModel.ToInt`).

## Model

| member | source | states |
|---|---|---|
| StrUtil.Snake | vertx-common-core-kt/src/main/kotlin/com/vertx/common/utils/StrUtil.kt:10-17 | the builder grows by one character per input character plus one per upper-case letter |
| StrUtil.TryUnderlineName | vertx-common-core-kt/src/main/kotlin/com/vertx/common/utils/StrUtil.kt:18 | the call fails (sb[0] on an empty builder) exactly for the empty string |
| StrUtil.UnderlineNameBuilder | vertx-common-core-kt/src/main/kotlin/com/vertx/common/utils/StrUtil.kt:8-22 | the StringBuilder loop followed by the delete of a leading '_' computes UnderlineName |
| StrUtil.SnakeConcat | vertx-common-core-kt/src/main/kotlin/com/vertx/common/utils/StrUtil.kt:10-17 | the loop translates each character on its own: the builder of a+b is the builder of a followed by that of b |
| StrUtil.SnakeHead | vertx-common-core-kt/src/main/kotlin/com/vertx/common/utils/StrUtil.kt:10-18 | the builder starts with '_' exactly when the input starts with '_' or an upper-case letter |
| StrUtil.SnakeNoUpper | vertx-common-core-kt/src/main/kotlin/com/vertx/common/utils/StrUtil.kt:10-17 | the builder never holds an upper-case letter |
| StrUtil.SnakeFixed | vertx-common-core-kt/src/main/kotlin/com/vertx/common/utils/StrUtil.kt:10-17 | a string without upper-case letters passes through the loop unchanged |
| StrUtil.UnderlineNoUpper | vertx-common-core-kt/src/main/kotlin/com/vertx/common/utils/StrUtil.kt:10-21 | the result of underlineName has no upper-case letter |
| StrUtil.UnderlineLength | vertx-common-core-kt/src/main/kotlin/com/vertx/common/utils/StrUtil.kt:10-21 | result length = input length + upper-case letters - 1 when the builder started with '_' |
| StrUtil.UnderlineFixed | vertx-common-core-kt/src/main/kotlin/com/vertx/common/utils/StrUtil.kt:10-21 | an all-lower-case name not starting with '_' is returned unchanged |
| StrUtil.UnderlineTwice | vertx-common-core-kt/src/main/kotlin/com/vertx/common/utils/StrUtil.kt:10-21 | applying it again changes nothing when the first result is non-empty and does not start with '_' |
| StrUtil.UnderlineNotIdempotent | vertx-common-core-kt/src/main/kotlin/com/vertx/common/utils/StrUtil.kt:18-20 | not idempotent in general: an upper-case-free name starting with "__" loses one leading '_' per application ("__a", then "_a", then "a") |
| StrUtil.SnakeAvoids | vertx-common-core-kt/src/main/kotlin/com/vertx/common/utils/StrUtil.kt:10-17 | the loop adds only '_' and lower-case letters; any other character absent from the input stays absent |
| StrUtil.UnderlineAvoids | vertx-common-core-kt/src/main/kotlin/com/vertx/common/utils/StrUtil.kt:10-21 | underlineName never introduces a character such as '.' that the name did not hold |
| StrUtil.SnakeMiddle | vertx-common-core-kt/src/main/kotlin/com/vertx/common/utils/StrUtil.kt:10-17 | between two upper-case-free strings only the middle character is translated |
| StrUtil.UnderlineCamel | vertx-common-core-kt/src/main/kotlin/com/vertx/common/utils/StrUtil.kt:10-21 | a lower-case word then a capitalised word gets one '_' and the capital lowered |
| StrUtil.UnderlineDropsMark | vertx-common-core-kt/src/main/kotlin/com/vertx/common/utils/StrUtil.kt:18-20 | a builder starting with '_' loses exactly that character |
| StrUtil.UnderlineCapitalStart | vertx-common-core-kt/src/main/kotlin/com/vertx/common/utils/StrUtil.kt:10-21 | a leading capital is lowered and its '_' mark removed |
| StrUtil.UnderlinePascal | vertx-common-core-kt/src/main/kotlin/com/vertx/common/utils/StrUtil.kt:10-21 | two capitalised words become lower-case words joined by one '_' |
| StrUtil.UnderlineExamples | vertx-common-core-kt/src/main/kotlin/com/vertx/common/utils/StrUtil.kt:18-20 | "createTime" gives "create_time" and "UserInfo" gives "user_info" |
| CommonStrUtil.UnderlineName | common/src/main/java/com/vertx/common/utils/StrUtil.kt:9-23 | common's free-function copy agrees with the extension function on every non-empty name and has no upper-case letter |
| MysqlAnnotationUtil.GetTableName | common-mysql/src/main/kotlin/com/vertx/mysql/utils/AnnotationUtil.kt:14-21 | a present non-blank @TableName name is used as is; a missing or blank one falls back to the underlined simple name, failing only on an empty simple name |
| CommonAnnotationUtil.GetTableName | common/src/main/java/com/vertx/common/utils/AnnotationUtil.kt:9-16 | any present @TableName name, blank or not, is used as is; otherwise the underlined simple name, failing only when that is empty |
| CommonAnnotationUtil.AgreesUnlessBlank | common/src/main/java/com/vertx/common/utils/AnnotationUtil.kt:11-15 | the two getTableName copies agree except on a present blank annotation, where only common-mysql falls back to the class name |
| CommonAnnotationUtil.BlankAnnotationExample | common/src/main/java/com/vertx/common/utils/AnnotationUtil.kt:15 | @TableName(" ") on UserInfo names table " " in common and "user_info" in common-mysql |
| SqlModel.CollectFields | mysql/src/main/kotlin/com/vertx/mysql/helper/MysqlHelper.kt:128-136 | the builders' field loop (underline, read, put when the rule picks) yields FieldMap |
| SqlModel.FieldMapKeys | vertx-common-mysql-kt/src/main/kotlin/com/vertx/mysql/helper/MysqlHelper.kt:296-307 | a column is in the builder's map iff some field of that name is picked by the rule |
| SqlModel.FieldMapDistinct | common/src/main/java/com/vertx/common/utils/MysqlUtil.kt:64-75 | the map never holds a column twice |
| SqlModel.FieldMapIsPicked | common/src/main/java/com/vertx/common/client/MysqlClient.kt:197-210 | with distinct column names the map is exactly the picked fields in declaration order |
| SqlModel.AllButIdKeys | vertx-common-mysql-kt/src/main/kotlin/com/vertx/mysql/helper/MysqlHelper.kt:255-267 | under the batch-insert rule the columns depend only on the field names, never on the values |
| SqlModel.SelectSql | vertx-common-mysql-kt/src/main/kotlin/com/vertx/mysql/helper/MysqlHelper.kt:324-342 | a SELECT of the given columns or all fields; it fails iff a name is empty; the tail is " lastSql;" when lastSql is not blank, else ";" |
| SqlModel.InsertColumns | mysql/src/main/kotlin/com/vertx/mysql/helper/MysqlHelper.kt:121-148 | a single-object INSERT has one VALUES row as long as its columns, and its columns are exactly the picked fields |
| SqlModel.InsertValue | common/src/main/java/com/vertx/common/client/MysqlClient.kt:158-185 | with distinct names a picked field's value sits under its own column |
| SqlModel.UpdateColumns | vertx-common-mysql-kt/src/main/kotlin/com/vertx/mysql/helper/MysqlHelper.kt:290-314 | the SET clause holds every field with isNll, otherwise only the non-null non-id fields; the condition is the caller's |
| SqlModel.SetClauseKeys | vertx-common-mysql-kt/src/main/kotlin/com/vertx/mysql/helper/MysqlHelper.kt:296-307 | the SET map holds a column iff a field of that name is non-null and not id, or isNll is set |
| SqlModel.UpdateValue | mysql/src/main/kotlin/com/vertx/mysql/helper/MysqlHelper.kt:156-180 | a non-null non-id field is set to its value; with isNll, id and null fields are set to NULL |
| SqlModel.FieldMapEntry | common/src/main/java/com/vertx/common/utils/MysqlUtil.kt:30-39 | a picked field is in the map with its picked value and a skipped field's column is absent |
| MysqlHelper.InsertBatchSql | vertx-common-mysql-kt/src/main/kotlin/com/vertx/mysql/helper/MysqlHelper.kt:245-282 | the batch INSERT is "" exactly for an empty list |
| MysqlHelper.CollectItem | vertx-common-mysql-kt/src/main/kotlin/com/vertx/mysql/helper/MysqlHelper.kt:255-266 | one item's map is every field but id, null values kept |
| MysqlHelper.CollectItems | vertx-common-mysql-kt/src/main/kotlin/com/vertx/mysql/helper/MysqlHelper.kt:255-267 | the item loop fails iff an item of another class is read through the first item's fields, and otherwise yields every item's map |
| MysqlHelper.BuildInsertSql | vertx-common-mysql-kt/src/main/kotlin/com/vertx/mysql/helper/MysqlHelper.kt:245-282 | buildInsertSql(dataList) computes InsertBatchSql |
| MysqlHelper.CollectRows | vertx-common-mysql-kt/src/main/kotlin/com/vertx/mysql/helper/MysqlHelper.kt:271-273 | the VALUES rows are each map's values in order |
| MysqlHelper.InsertBatchSqlFails | vertx-common-mysql-kt/src/main/kotlin/com/vertx/mysql/helper/MysqlHelper.kt:245-282 | a foreign item throws when a field is read; otherwise an unnamable table throws |
| MysqlHelper.InsertBatchSqlBuilt | vertx-common-mysql-kt/src/main/kotlin/com/vertx/mysql/helper/MysqlHelper.kt:245-282 | the statement uses the first map's keys as columns and one VALUES row per item, followed by ";" |
| MysqlHelper.InsertBatchShape | vertx-common-mysql-kt/src/main/kotlin/com/vertx/mysql/helper/MysqlHelper.kt:245-273 | one VALUES row per item, each as long as the column list; id is never a column; the tail is ";" |
| MysqlHelper.InsertBatchKeepsNulls | vertx-common-mysql-kt/src/main/kotlin/com/vertx/mysql/helper/MysqlHelper.kt:255-273 | every non-id field of every item is inserted under its column with its own value, null included |
| MysqlHelper.InsertedId | vertx-common-mysql-kt/src/main/kotlin/com/vertx/mysql/helper/MysqlHelper.kt:41-47 | insert reports LAST_INSERTED_ID iff the class declares a field named exactly "id", else 0 |
| MysqlHelper.InsertIdNeedsExactName | vertx-common-mysql-kt/src/main/kotlin/com/vertx/mysql/helper/MysqlHelper.kt:32-48 | a field "Id" becomes column "id" and is left out of the INSERT, yet insert reports 0 |
| MysqlHelper.BuildUpdateSql | vertx-common-mysql-kt/src/main/kotlin/com/vertx/mysql/helper/MysqlHelper.kt:290-314 | buildUpdateSql computes UpdateSql under common-mysql's table name |
| MysqlHelper.DeleteSqlText | vertx-common-mysql-kt/src/main/kotlin/com/vertx/mysql/helper/MysqlHelper.kt:349-356 | every DELETE it builds ends in ";;"; it fails iff the table cannot be named |
| MysqlHelper.CountSql | vertx-common-mysql-kt/src/main/kotlin/com/vertx/mysql/helper/MysqlHelper.kt:232-239 | buildCountSql is a SELECT COUNT with nothing appended |
| MysqlHelper.Chunks | vertx-common-mysql-kt/src/main/kotlin/com/vertx/mysql/helper/MysqlHelper.kt:67 | CollUtil.split: chunks of 1 to size items, all but the last exactly size |
| MysqlHelper.ChunksFlatten | vertx-common-mysql-kt/src/main/kotlin/com/vertx/mysql/helper/MysqlHelper.kt:67-76 | the chunks put back together are the list |
| MysqlHelper.RunQueriesFails | vertx-common-mysql-kt/src/main/kotlin/com/vertx/mysql/helper/MysqlHelper.kt:71-85 | the try block throws iff some statement cannot be built or its query fails |
| MysqlHelper.RunQueriesCount | vertx-common-mysql-kt/src/main/kotlin/com/vertx/mysql/helper/MysqlHelper.kt:71-86 | the returned count is the sum of the row counts before the first failure |
| MysqlHelper.InsertBatch | vertx-common-mysql-kt/src/main/kotlin/com/vertx/mysql/helper/MysqlHelper.kt:59-87 | insertBatch's chunk loop inside the transaction computes InsertBatchRun |
| MysqlHelper.BuildUpdates | vertx-common-mysql-kt/src/main/kotlin/com/vertx/mysql/helper/MysqlHelper.kt:132 | all UPDATE statements are built first; building fails iff some item's statement fails |
| MysqlHelper.RunChunk | vertx-common-mysql-kt/src/main/kotlin/com/vertx/mysql/helper/MysqlHelper.kt:139-142 | one chunk's queries continue the run of the statements before it |
| MysqlHelper.UpdateBatch | vertx-common-mysql-kt/src/main/kotlin/com/vertx/mysql/helper/MysqlHelper.kt:118-154 | updateBatch (build all, then chunks in one transaction) computes UpdateBatchRun |
| MysqlHelper.RunChunks | vertx-common-mysql-kt/src/main/kotlin/com/vertx/mysql/helper/MysqlHelper.kt:137-143 | the loop over chunks runs exactly the flattened statement list |
| MysqlHelper.EmptyBatch | vertx-common-mysql-kt/src/main/kotlin/com/vertx/mysql/helper/MysqlHelper.kt:60-63 | an empty batch returns 0 and touches no connection |
| MysqlHelper.TransactionOutcome | vertx-common-mysql-kt/src/main/kotlin/com/vertx/mysql/helper/MysqlHelper.kt:79-86 | a batch commits iff no statement failed, always closes the connection last (also a caller's), connects iff none was given, and returns the counts up to the failure |
| MysqlHelper.InsertBatchOutcome | vertx-common-mysql-kt/src/main/kotlin/com/vertx/mysql/helper/MysqlHelper.kt:59-87 | the transaction outcome for insertBatch, with chunk k the first that fails |
| MysqlHelper.UpdateBatchOutcome | vertx-common-mysql-kt/src/main/kotlin/com/vertx/mysql/helper/MysqlHelper.kt:118-154 | the transaction outcome for updateBatch, with item k the first whose query fails |
| MysqlHelper.UpdateBatchBuildFailure | vertx-common-mysql-kt/src/main/kotlin/com/vertx/mysql/helper/MysqlHelper.kt:125-136 | an UPDATE that cannot be built escapes before any connection or transaction |
| MysqlHelper.SelectPage | vertx-common-mysql-kt/src/main/kotlin/com/vertx/mysql/helper/MysqlHelper.kt:199-223 | selectPage returns null iff page < 1 or pageSize < 1; the count query has nothing appended |
| MysqlHelper.SelectPageTail | vertx-common-mysql-kt/src/main/kotlin/com/vertx/mysql/helper/MysqlHelper.kt:214-216 | the page SELECT ends in a space, the order/limit clause and ";" |
| MysqlHelper.PageClauseValue | vertx-common-mysql-kt/src/main/kotlin/com/vertx/mysql/helper/MysqlHelper.kt:215 | without overflow the clause's offset is (page - 1) * pageSize |
| MysqlHelper.PageClauseNotBlank | vertx-common-mysql-kt/src/main/kotlin/com/vertx/mysql/helper/MysqlHelper.kt:215 | the page clause is never blank, so it always reaches the SELECT |
| MysqlHelper.PageOffsetOverflow | vertx-common-mysql-kt/src/main/kotlin/com/vertx/mysql/helper/MysqlHelper.kt:215 | page 2^30+1 of size 4 wraps to offset 0 |
| MysqlHelper.TotalPagesValue | vertx-common-mysql-kt/src/main/kotlin/com/vertx/mysql/helper/MysqlHelper.kt:222 | while count / pageSize fits an Int, totalPages is count / pageSize + 1 |
| MysqlHelper.TotalPagesExtraPage | vertx-common-mysql-kt/src/main/kotlin/com/vertx/mysql/helper/MysqlHelper.kt:222 | a count k * pageSize reports k + 1 pages, and page k + 1 starts at offset count |
| MysqlHelper.PagesNeeded | vertx-common-mysql-kt/src/main/kotlin/com/vertx/mysql/helper/MysqlHelper.kt:222 | the intended page count: 0 for no rows, else (p-1)*pageSize < count <= p*pageSize |
| MysqlHelper.PagesNeededExact | vertx-common-mysql-kt/src/main/kotlin/com/vertx/mysql/helper/MysqlHelper.kt:222 | the intended count of k * pageSize rows is k pages |
| MysqlHelper.DeleteSqlOnce | vertx-common-mysql-kt/src/main/kotlin/com/vertx/mysql/helper/MysqlHelper.kt:349-356 | the intended DELETE: the statement followed by one ";" |
| MysqlHelper.DeleteEndsTwice | vertx-common-mysql-kt/src/main/kotlin/com/vertx/mysql/helper/MysqlHelper.kt:349-356 | as written the tail is ";;" where the intended one is ";" |
| LegacyMysqlHelper.BuildInsertSql | mysql/src/main/kotlin/com/vertx/mysql/helper/MysqlHelper.kt:121-148 | the INSERT keeps the non-null fields other than id, in one VALUES row |
| LegacyMysqlHelper.InsertSkipsNullAndId | mysql/src/main/kotlin/com/vertx/mysql/helper/MysqlHelper.kt:128-136 | a column is inserted iff some field underlines to it, is non-null and is not id |
| LegacyMysqlHelper.BuildUpdateSql | mysql/src/main/kotlin/com/vertx/mysql/helper/MysqlHelper.kt:156-180 | buildUpdateSql computes UpdateSql under common-mysql's table name |
| LegacyMysqlHelper.Select | mysql/src/main/kotlin/com/vertx/mysql/helper/MysqlHelper.kt:63-71 | select drops lastSql: the query always ends in one ";" |
| LegacyMysqlHelper.SelectPage | mysql/src/main/kotlin/com/vertx/mysql/helper/MysqlHelper.kt:83-108 | no query (empty list) iff lastSql is not blank (checked first), page < 1 or pageSize < 1; otherwise the SELECT ends in " " + limit clause + ";" |
| LegacyMysqlHelper.LimitClauseValue | mysql/src/main/kotlin/com/vertx/mysql/helper/MysqlHelper.kt:103 | without overflow the limit offset is (page - 1) * pageSize |
| LegacyMysqlHelper.DeleteText | mysql/src/main/kotlin/com/vertx/mysql/helper/MysqlHelper.kt:214-221 | the DELETE ends in one ";" and fails iff the table cannot be named |
| CommonMysqlClient.InitOutcome | common/src/main/java/com/vertx/common/client/MysqlClient.kt:42-97 | the first blank of host, username, password, database throws, in that order; a failed test query throws; otherwise host, username, password, database, port, charset and timezone are copied into the connect options, reconnect is 30 times every 1000 ms, the pool is named "mysql-pool-<name>-<version>" and its five limits (max size, idle timeout, connection timeout, max lifetime, wait-queue size) come from the configuration |
| CommonMysqlClient.InitIgnoresUncheckedFields | common/src/main/java/com/vertx/common/client/MysqlClient.kt:51-72 | port, charset and timezone never decide whether init succeeds |
| CommonMysqlClient.Client.Init | common/src/main/java/com/vertx/common/client/MysqlClient.kt:42-97 | init computes InitOutcome and assigns the global pool only on success |
| CommonMysqlClient.Client.constructor | common/src/main/java/com/vertx/common/client/MysqlClient.kt:42-97 | the global pool starts unset |
| CommonMysqlClient.Insert | common/src/main/java/com/vertx/common/client/MysqlClient.kt:104-108 | insert fails iff the table cannot be named and otherwise reports LAST_INSERTED_ID |
| CommonMysqlClient.InsertIdWithoutIdField | common/src/main/java/com/vertx/common/client/MysqlClient.kt:104-108 | for a class without id this client reports LAST_INSERTED_ID where the newer helper reports 0 |
| CommonMysqlClient.BuildInsertSql | common/src/main/java/com/vertx/common/client/MysqlClient.kt:158-185 | the INSERT keeps the non-null non-id fields under common's table name |
| CommonMysqlClient.BuildUpdateSql | common/src/main/java/com/vertx/common/client/MysqlClient.kt:193-217 | buildUpdateSql computes UpdateSql under common's table name |
| CommonMysqlClient.BlankAnnotationInsert | common/src/main/java/com/vertx/common/client/MysqlClient.kt:158-185 | a blank @TableName sends this client's INSERT to table " " and the mysql module's to "user_info" |
| CommonMysqlClient.Select | common/src/main/java/com/vertx/common/client/MysqlClient.kt:142-148 | select passes no lastSql: the query ends in one ";" |
| CommonMysqlClient.DeleteText | common/src/main/java/com/vertx/common/client/MysqlClient.kt:251-258 | the DELETE ends in one ";" and fails iff the table cannot be named |
| CommonMysqlUtil.BuildInsertSql | common/src/main/java/com/vertx/common/utils/MysqlUtil.kt:24-50 | the INSERT keeps every non-null field, id included |
| CommonMysqlUtil.InsertSkipsNullOnly | common/src/main/java/com/vertx/common/utils/MysqlUtil.kt:30-39 | a column is inserted iff some field underlines to it and is non-null |
| CommonMysqlUtil.InsertKeepsId | common/src/main/java/com/vertx/common/utils/MysqlUtil.kt:30-39 | a non-null id is inserted with its value, where the mysql module's builder drops it |
| CommonMysqlUtil.BuildUpdateSql | common/src/main/java/com/vertx/common/utils/MysqlUtil.kt:58-82 | buildUpdateSql computes UpdateSql under the class's own underlined name |
| CommonMysqlUtil.TableIgnoresAnnotation | common/src/main/java/com/vertx/common/utils/MysqlUtil.kt:40 | the table is the underlined simple name whatever the annotation says |
| CommonMysqlUtil.AnnotatedDelete | common/src/main/java/com/vertx/common/utils/MysqlUtil.kt:116-123 | UserInfo annotated "users": this builder deletes from user_info, the mysql module's from users |
| CommonMysqlUtil.SelectText | common/src/main/java/com/vertx/common/utils/MysqlUtil.kt:92-109 | fails iff a name is empty; the tail is " lastSql;" for a non-blank lastSql, else ";" |
| CommonMysqlUtil.DeleteText | common/src/main/java/com/vertx/common/utils/MysqlUtil.kt:116-123 | the DELETE of the underlined simple name, ending in one ";" |
| RabbitMq.QueueNameParts | vertx-common-rabbitmq-kt/src/main/kotlin/com/vertx/rabbitmq/helper/RabbitMqHelper.kt:34-42 | six parts: env, underlined model, queue, date, underlined exchanger, lower-case type; fails iff the model or exchanger name is empty |
| RabbitMq.QueueName | vertx-common-rabbitmq-kt/src/main/kotlin/com/vertx/rabbitmq/helper/RabbitMqHelper.kt:34-42 | the queue name exists iff model and exchanger names are non-empty |
| RabbitMq.QueueNameSplits | vertx-common-rabbitmq-kt/src/main/kotlin/com/vertx/rabbitmq/helper/RabbitMqHelper.kt:34-42 | when no part holds '.', the name splits back into its six parts |
| RabbitMq.TestCustomerQueueName | vertx-common-rabbitmq-kt/src/main/kotlin/com/vertx/rabbitmq/helper/RabbitMqHelper.kt:34-42 | TestCustomerHandler in "dev" is named "dev.test.test.2023-08-03.test.fanout" |
| RabbitMq.DefaultExchangeHasNoQueueName | vertx-common-rabbitmq-kt/src/main/kotlin/com/vertx/rabbitmq/helper/RabbitMqHelper.kt:34-42 | the DEFAULT exchange is named "", so every use of its queue name throws |
| RabbitMq.QueueNameNotBlank | vertx-common-rabbitmq-kt/src/main/kotlin/com/vertx/rabbitmq/helper/RabbitMqHelper.kt:134-137 | a queue name always holds '.', so sendMessageToQueue's blank check never fires |
| RabbitMq.RegisterQueueTopology | vertx-common-rabbitmq-kt/src/main/kotlin/com/vertx/rabbitmq/helper/RabbitMqHelper.kt:45-70 | the exchange is declared iff not DEFAULT; the queue is declared iff the types match and the exchange declaration succeeded; the call fails iff a broker call it makes fails; on success the queue is bound with key ""; autoAck fills auto-delete |
| RabbitMq.ConsumerStartedDespiteMismatch | vertx-common-rabbitmq-kt/src/main/kotlin/com/vertx/rabbitmq/helper/RabbitMqHelper.kt:188-199 | a type mismatch leaves the queue undeclared, yet once the exchange is declared the consumer is started on it, failing iff basicConsumer fails |
| RabbitMq.ExchangePublishRule | vertx-common-rabbitmq-kt/src/main/kotlin/com/vertx/rabbitmq/helper/RabbitMqHelper.kt:78-125 | a publish happens iff the exchange is not DIRECT, its name is not blank, the persistence hook returns and the message has its type; the envelope is persisted first and published with key ""; the send succeeds iff that publish and a requested confirm succeed; a throwing hook or failed publish is the failure |
| RabbitMq.ExchangeGuardsFirst | vertx-common-rabbitmq-kt/src/main/kotlin/com/vertx/rabbitmq/helper/RabbitMqHelper.kt:85-95 | DIRECT is refused before anything else, a blank name before persisting |
| RabbitMq.QueueSendRule | vertx-common-rabbitmq-kt/src/main/kotlin/com/vertx/rabbitmq/helper/RabbitMqHelper.kt:129-171 | the blank-name failure never happens; a throwing hook ends the send after the persist call; a wrong type is persisted then refused; a right type is published with the queue name as key; the send succeeds iff that publish and a requested confirm succeed |
| RabbitMq.AckStep | vertx-common-rabbitmq-kt/src/main/kotlin/com/vertx/rabbitmq/helper/RabbitMqHelper.kt:288-299 | ackMessage removes the id from the ledger |
| RabbitMq.Deliver | vertx-common-rabbitmq-kt/src/main/kotlin/com/vertx/rabbitmq/helper/RabbitMqHelper.kt:202-276 | a delivery only removes ledger entries: no id is added and no count changes |
| RabbitMq.DecodeGuardsAck | vertx-common-rabbitmq-kt/src/main/kotlin/com/vertx/rabbitmq/helper/RabbitMqHelper.kt:209-238 | a missing or blank id is acked under key ""; a missing, null or unmappable msg is acked under its id; the handler is not called |
| RabbitMq.FailureRequeuesEvenUnderAutoAck | vertx-common-rabbitmq-kt/src/main/kotlin/com/vertx/rabbitmq/helper/RabbitMqHelper.kt:240-253 | a failing handler result is reported; below maxRetry a requeueing nack is sent whatever autoAck says, and at maxRetry the message is acked |
| RabbitMq.SuccessAcks | vertx-common-rabbitmq-kt/src/main/kotlin/com/vertx/rabbitmq/helper/RabbitMqHelper.kt:254-259 | success calls back with "" and the id; if that call returns, the message is acked and its id forgotten; if it throws, the catch block runs with that exception |
| RabbitMq.ThrowingSuccessCallbackRequeues | vertx-common-rabbitmq-kt/src/main/kotlin/com/vertx/rabbitmq/helper/RabbitMqHelper.kt:254-271 | a callback that throws on success (not a decode or argument exception) is called again with the exception message and the message is requeued after the retry interval, never acked |
| RabbitMq.ExceptionRules | vertx-common-rabbitmq-kt/src/main/kotlin/com/vertx/rabbitmq/helper/RabbitMqHelper.kt:260-275 | the callback fires iff an id was read; if that call throws, nothing else happens; otherwise decode and argument exceptions are acked and never requeued, others requeued iff not autoAck and never acked |
| RabbitMq.PoisonMessageAcked | vertx-common-rabbitmq-kt/src/main/kotlin/com/vertx/rabbitmq/helper/RabbitMqHelper.kt:260-270 | a body that is not a JSON object is acked and never reaches the handler |
| RabbitMq.AutoAckNeverAcks | vertx-common-rabbitmq-kt/src/main/kotlin/com/vertx/rabbitmq/helper/RabbitMqHelper.kt:288-299 | under autoAck the helper never acks |
| RabbitMq.RequeuedForever | vertx-common-rabbitmq-kt/src/main/kotlin/com/vertx/rabbitmq/helper/RabbitMqHelper.kt:241-253 | as written, a message that keeps failing is requeued on every delivery with the ledger unchanged |
| RabbitMq.NoRetryLimit | vertx-common-rabbitmq-kt/src/main/kotlin/com/vertx/rabbitmq/helper/RabbitMqHelper.kt:245-251 | from the empty ledger nothing ever fills, a failing message is never acked when maxRetry > 0 |
| RabbitMq.CountedFailureBelowLimit | vertx-common-rabbitmq-kt/src/main/kotlin/com/vertx/rabbitmq/helper/RabbitMqHelper.kt:245-251 | with counting, a failure below the limit is requeued and its attempt counted |
| RabbitMq.CountedFailureAtLimit | vertx-common-rabbitmq-kt/src/main/kotlin/com/vertx/rabbitmq/helper/RabbitMqHelper.kt:245-251 | with counting, a failure at the limit is acked and its id forgotten |
| RabbitMq.CountedRetriesEnd | vertx-common-rabbitmq-kt/src/main/kotlin/com/vertx/rabbitmq/helper/RabbitMqHelper.kt:245-251 | with counting, a failing message is requeued exactly maxRetry - count times and then acked and forgotten |
| RabbitMq.PublishedEnvelopeNeverHandled | vertx-common-rabbitmq-kt/src/main/kotlin/com/vertx/rabbitmq/helper/RabbitMqHelper.kt:221-225 | the producers' envelope carries "body" where the consumer reads "msg": every published message is acked unhandled |
| RabbitMq.ConsumableEnvelopeHandled | vertx-common-rabbitmq-kt/src/main/kotlin/com/vertx/rabbitmq/helper/RabbitMqHelper.kt:221-240 | with the payload under "msg" a mapped message reaches the handler first |
| RabbitMq.Helper.constructor | vertx-common-rabbitmq-kt/src/main/kotlin/com/vertx/rabbitmq/helper/RabbitMqHelper.kt:174 | the retry ledger starts empty |
| RabbitMq.Helper.AckMessage | vertx-common-rabbitmq-kt/src/main/kotlin/com/vertx/rabbitmq/helper/RabbitMqHelper.kt:288-299 | ackMessage updates the ledger and log as AckStep says |
| RabbitMq.Helper.NackMessage | vertx-common-rabbitmq-kt/src/main/kotlin/com/vertx/rabbitmq/helper/RabbitMqHelper.kt:302-311 | nackMessage leaves the ledger and logs one requeueing nack after the retry interval |
| RabbitMq.Helper.RegisterQueue | vertx-common-rabbitmq-kt/src/main/kotlin/com/vertx/rabbitmq/helper/RabbitMqHelper.kt:45-70 | registerQueue issues exactly RegisterQueueOutcome's calls, stopping at the first failing one, and leaves the ledger |
| RabbitMq.Helper.SendMessageToExchange | vertx-common-rabbitmq-kt/src/main/kotlin/com/vertx/rabbitmq/helper/RabbitMqHelper.kt:78-125 | sendMessageToExchange issues exactly SendToExchangeOutcome's calls and fails as it says |
| RabbitMq.Helper.SendMessageToQueue | vertx-common-rabbitmq-kt/src/main/kotlin/com/vertx/rabbitmq/helper/RabbitMqHelper.kt:129-171 | sendMessageToQueue issues exactly SendToQueueOutcome's calls and fails as it says |
| RabbitMq.Helper.AwaitConfirms | vertx-common-rabbitmq-kt/src/main/kotlin/com/vertx/rabbitmq/helper/RabbitMqHelper.kt:104-121 | after a successful publish, with sendConfirm a 5-second waitForConfirms, failing when the broker does not confirm |
| RabbitMq.Helper.RegisterConsumer | vertx-common-rabbitmq-kt/src/main/kotlin/com/vertx/rabbitmq/helper/RabbitMqHelper.kt:188-199 | registerConsumer registers the queue, then starts the consumer unless registration threw; a failing basicConsumer fails it |
| RabbitMq.Helper.OnDelivery | vertx-common-rabbitmq-kt/src/main/kotlin/com/vertx/rabbitmq/helper/RabbitMqHelper.kt:202-276 | the consumer's handler changes the ledger and log exactly as Deliver says |
| RabbitMq.Helper.OnResult | vertx-common-rabbitmq-kt/src/main/kotlin/com/vertx/rabbitmq/helper/RabbitMqHelper.kt:240-259 | after the user's handler, the ledger and log change exactly as HandledStep says: callback, then ack or a delayed requeue, or the catch block when the callback throws |
| RabbitMq.Helper.OnFailure | vertx-common-rabbitmq-kt/src/main/kotlin/com/vertx/rabbitmq/helper/RabbitMqHelper.kt:260-275 | the catch block changes the ledger and log exactly as CatchStep says |
| LegacyRabbitMq.QueueNameParts | common-rabbitmq/src/main/kotlin/com/vertx/rabbitmq/helper/RabbitMqHelper.kt:28-34 | six parts: env, model constant name, queue, date, exchange constant name, type name, all verbatim |
| LegacyRabbitMq.QueueNameSplits | common-rabbitmq/src/main/kotlin/com/vertx/rabbitmq/helper/RabbitMqHelper.kt:28-34 | when no part holds '.', the name splits back into its parts |
| LegacyRabbitMq.QueueNameKeepsCase | common-rabbitmq/src/main/kotlin/com/vertx/rabbitmq/helper/RabbitMqHelper.kt:28-34 | the type part stays upper-case: nothing is lowered or underscored |
| LegacyRabbitMq.RegisterQueueTopology | common-rabbitmq/src/main/kotlin/com/vertx/rabbitmq/helper/RabbitMqHelper.kt:37-62 | the exchange is declared unless DEFAULT, under its upper-case type, and DEFAULT is never declared; a type mismatch leaves only that declaration; the call fails iff a broker call it makes fails; on success a matching type ends with declare then bind |
| LegacyRabbitMq.ExchangePublishesRawMessage | common-rabbitmq/src/main/kotlin/com/vertx/rabbitmq/helper/RabbitMqHelper.kt:70-95 | a publish happens iff not DIRECT, the persistence function returns and the type matches; the envelope is persisted but the bare message is published; the send succeeds iff that publish does |
| LegacyRabbitMq.QueueSendAlwaysPublishes | common-rabbitmq/src/main/kotlin/com/vertx/rabbitmq/helper/RabbitMqHelper.kt:99-129 | once the persistence function returns, every message, any class or null, is published to the queue; the send fails iff that function throws, the publish fails or a requested confirm does not come |
| LegacyRabbitMq.Deliver | common-rabbitmq/src/main/kotlin/com/vertx/rabbitmq/helper/RabbitMqHelper.kt:158-195 | a delivery only removes ledger entries |
| LegacyRabbitMq.ExceptionsRequeue | common-rabbitmq/src/main/kotlin/com/vertx/rabbitmq/helper/RabbitMqHelper.kt:189-194 | every exception is requeued unless autoAck and never acked; the ledger is unchanged |
| LegacyRabbitMq.UnusableMessageAcked | common-rabbitmq/src/main/kotlin/com/vertx/rabbitmq/helper/RabbitMqHelper.kt:165-174 | a null or mistyped message is acked and its id forgotten |
| LegacyRabbitMq.ResultRules | common-rabbitmq/src/main/kotlin/com/vertx/rabbitmq/helper/RabbitMqHelper.kt:175-188 | true is acked; false is requeued below maxRetry and acked at it |
| LegacyRabbitMq.NullIdNeverAcked | common-rabbitmq/src/main/kotlin/com/vertx/rabbitmq/helper/RabbitMqHelper.kt:158-202 | a null id is never acked: every path ends in the catch block |
| LegacyRabbitMq.Helper.constructor | common-rabbitmq/src/main/kotlin/com/vertx/rabbitmq/helper/RabbitMqHelper.kt:132 | the retry ledger starts empty |
| LegacyRabbitMq.Helper.RegisterQueue | common-rabbitmq/src/main/kotlin/com/vertx/rabbitmq/helper/RabbitMqHelper.kt:37-62 | registerQueue issues exactly RegisterQueueOutcome's calls, stopping at the first failing one |
| LegacyRabbitMq.Helper.SendMessageToExchange | common-rabbitmq/src/main/kotlin/com/vertx/rabbitmq/helper/RabbitMqHelper.kt:70-95 | sendMessageToExchange issues exactly SendToExchangeOutcome's calls and fails as it says |
| LegacyRabbitMq.Helper.SendMessageToQueue | common-rabbitmq/src/main/kotlin/com/vertx/rabbitmq/helper/RabbitMqHelper.kt:99-129 | sendMessageToQueue issues exactly SendToQueueOutcome's calls and fails as it says |
| LegacyRabbitMq.Helper.RegisterConsumer | common-rabbitmq/src/main/kotlin/com/vertx/rabbitmq/helper/RabbitMqHelper.kt:135-156 | registerConsumer only starts the consumer on the queue name, failing iff basicConsumer fails |
| LegacyRabbitMq.Helper.AckMessage | common-rabbitmq/src/main/kotlin/com/vertx/rabbitmq/helper/RabbitMqHelper.kt:201-212 | a null id fails before anything changes; otherwise the id is forgotten and acked unless autoAck |
| LegacyRabbitMq.Helper.OnDelivery | common-rabbitmq/src/main/kotlin/com/vertx/rabbitmq/helper/RabbitMqHelper.kt:158-195 | the consumer's handler changes the ledger and log exactly as Deliver says |
| VertxLoadConfig.AddressesMembers | vertx-common-core-kt/src/main/kotlin/com/vertx/common/config/VertxLoadConfig.kt:106-126 | an address is listed iff some scanned class carries it |
| VertxLoadConfig.MissingIdNames | vertx-common-core-kt/src/main/kotlin/com/vertx/common/config/VertxLoadConfig.kt:127-134 | at most one warning per class, each naming a @TableName class without an "id" field |
| VertxLoadConfig.LocalClassFilter | vertx-common-core-kt/src/main/kotlin/com/vertx/common/config/VertxLoadConfig.kt:103-136 | the scan returns iff no class repeats an earlier address, and then its set is exactly the addresses; otherwise it throws at the first repeat with that class and address |
| VertxLoadConfig.NoDuplicateIffDistinct | vertx-common-core-kt/src/main/kotlin/com/vertx/common/config/VertxLoadConfig.kt:106-126 | the scan returns normally iff the scanned addresses are pairwise distinct |
| VertxLoadConfig.DefaultAddressesCollide | vertx-common-core-kt/src/main/kotlin/com/vertx/common/config/VertxLoadConfig.kt:109-125 | two classes left at the default address "" collide |
| VertxLoadConfig.UnannotatedNeverDuplicate | vertx-common-core-kt/src/main/kotlin/com/vertx/common/config/VertxLoadConfig.kt:109-125 | a class without @UniqueAddress never throws |
| VertxLoadConfig.UnannotatedKeepsAddresses | vertx-common-core-kt/src/main/kotlin/com/vertx/common/config/VertxLoadConfig.kt:109-125 | a class without @UniqueAddress adds no address |
| VertxLoadConfig.DuplicatesOnlyByAddress | vertx-common-core-kt/src/main/kotlin/com/vertx/common/config/VertxLoadConfig.kt:107-135 | only the addresses decide where the scan throws, never @TableName or the fields |
| VertxLoadConfig.ConfigPathInjective | vertx-common-core-kt/src/main/kotlin/com/vertx/common/config/VertxLoadConfig.kt:76-82 | different environments read different files |
| VertxLoadConfig.Env | vertx-common-core-kt/src/main/kotlin/com/vertx/common/config/VertxLoadConfig.kt:77-81 | the environment is the global active when not blank, else the parameter |
| VertxLoadConfig.InitOutcome | vertx-common-core-kt/src/main/kotlin/com/vertx/common/config/VertxLoadConfig.kt:62-101 | a duplicate throws with nothing assigned; otherwise the context is bound; isInit becomes true iff the environment's file reads and maps; init throws iff the file exists and fails to read or map; only an existing file changes active or appConfigJson |
| VertxLoadConfig.MissingFileChangesNothing | vertx-common-core-kt/src/main/kotlin/com/vertx/common/config/VertxLoadConfig.kt:65-87 | a missing configuration file leaves isInit, active and appConfigJson as they were; only vertx, eventBus, sharedData and the log factory are bound |
| VertxLoadConfig.InitLoads | vertx-common-core-kt/src/main/kotlin/com/vertx/common/config/VertxLoadConfig.kt:88-100 | with the file read and mapped, active is set, the file is kept and isInit becomes true |
| VertxLoadConfig.LoadFailureKeepsActive | vertx-common-core-kt/src/main/kotlin/com/vertx/common/config/VertxLoadConfig.kt:88-100 | a file that fails to read or map throws after active is set (and, when only the mapping fails, appConfigJson too), leaving isInit unchanged |
| VertxLoadConfig.Globals.Init | vertx-common-core-kt/src/main/kotlin/com/vertx/common/config/VertxLoadConfig.kt:62-101 | init updates the globals and throws as InitOutcome says; a duplicate is reported iff the scan finds a repeated address, and it names the first class that repeats one; the warnings are the missing-id warnings logged before that class, or of every class |
| BusHandler.RegisterOutcome | vertx-common-eventbus-kt/src/main/kotlin/com/vertx/eventbus/handler/BusHandler.kt:122-128 | registering fails iff the address is a key; otherwise it adds exactly address to address |
| BusHandler.RegisterAllOutcome | vertx-common-eventbus-kt/src/main/kotlin/com/vertx/eventbus/handler/BusHandler.kt:113-128 | entries are never removed: registration k throws iff its address was registered earlier, and every address ends up a key |
| BusHandler.SecondRegistrationThrows | vertx-common-eventbus-kt/src/main/kotlin/com/vertx/eventbus/handler/BusHandler.kt:125-127 | the same address registered twice: the second throws |
| BusHandler.Consume | vertx-common-eventbus-kt/src/main/kotlin/com/vertx/eventbus/handler/BusHandler.kt:130-149 | the consumer replies with the handler's encoded response iff it completes, else fails with 500 and the exception's message |
| BusHandler.Deliver | vertx-common-eventbus-kt/src/main/kotlin/com/vertx/eventbus/handler/BusHandler.kt:130-149 | no handler answers iff the address is unregistered; a registered service gets the body as sent, still JSON text: it answers iff a String passes its handleRequest's parameter cast and its handler completes on that text; a service that overrides handleRequest with a Request type a String cannot be cast to is refused with 500 |
| BusHandler.Received | vertx-common-eventbus-kt/src/main/kotlin/com/vertx/eventbus/handler/BusHandler.kt:133-134 | the handler receives the delivered text itself when a String passes its parameter cast (the default handleRequest, or a Request type such as String, Any or CharSequence); an override whose Request type a String cannot be cast to throws the cast exception |
| BusHandler.DeliverDecoded | vertx-common-eventbus-kt/src/main/kotlin/com/vertx/eventbus/handler/BusHandler.kt:130-149 | the decoding consumer: a body that does not decode is refused with 500; a decoded one answers iff the handler completes on the decoded request |
| BusHandler.Call | vertx-common-eventbus-kt/src/main/kotlin/com/vertx/eventbus/handler/BusHandler.kt:79-108 | an encoding failure sends nothing; otherwise the payload goes to the address and the future completes iff the reply came and decodes, else fails with the transport cause |
| BusHandler.CallRoundTrip | vertx-common-eventbus-kt/src/main/kotlin/com/vertx/eventbus/handler/BusHandler.kt:82-97 | with a consumer that decodes the request, a request and a response that round-trip through JSON complete the caller's future with the handler's response to that request |
| BusHandler.HandlerFailureReachesCaller | vertx-common-eventbus-kt/src/main/kotlin/com/vertx/eventbus/handler/BusHandler.kt:130-149 | a throwing handler, or a Request type the body cannot be cast to, reaches the caller as a failure with 500 and the exception message |
| BusHandler.PingArrivesQuoted | vertx-common-eventbus-kt/src/main/kotlin/com/vertx/eventbus/handler/BusHandler.kt:130-135 | as written, a String service that answers whether its request is "ping", called with "ping", completes with false: it receives "\"ping\"" |
| BusHandler.TypedRequestAlwaysRefused | vertx-common-eventbus-kt/src/main/kotlin/com/vertx/eventbus/handler/BusHandler.kt:133-134 | as written, a service that overrides handleRequest with a Request type a String cannot be cast to refuses every call with 500 |
| BusHandler.DefaultHandlerAnswersNull | vertx-common-eventbus-kt/src/main/kotlin/com/vertx/eventbus/handler/BusHandler.kt:69-72 | a service that keeps the default handleRequest does no cast and answers every request with "null" |
| BusHandler.PingDecoded | vertx-common-eventbus-kt/src/main/kotlin/com/vertx/eventbus/handler/BusHandler.kt:130-135 | with the decoding consumer, the same call completes with true |
| BusHandler.Registry.constructor | vertx-common-eventbus-kt/src/main/kotlin/com/vertx/eventbus/handler/BusHandler.kt:113 | the address map starts empty |
| BusHandler.Registry.Register | vertx-common-eventbus-kt/src/main/kotlin/com/vertx/eventbus/handler/BusHandler.kt:122-152 | a duplicate throws and changes nothing; otherwise the entry is added and one consumer registered, keeping each key mapped to itself |
| MainLaunch.FirstActiveArg | vertx-common-core-kt/src/main/kotlin/com/vertx/common/MainLaunch.java:139-145 | finds the first argument starting with "-active=", or reports none |
| MainLaunch.StartingActive | vertx-common-core-kt/src/main/kotlin/com/vertx/common/MainLaunch.java:102-104 | a blank environment becomes "prod"; the result is never blank |
| MainLaunch.FirstActiveWins | vertx-common-core-kt/src/main/kotlin/com/vertx/common/MainLaunch.java:139-144 | the first "-active=" argument decides, whatever follows it |
| MainLaunch.NoActiveArgKeeps | vertx-common-core-kt/src/main/kotlin/com/vertx/common/MainLaunch.java:139-146 | without an "-active=" argument the environment is kept |
| MainLaunch.EmptyActiveStartsProd | vertx-common-core-kt/src/main/kotlin/com/vertx/common/MainLaunch.java:140-142 | "-active=" with nothing after it clears the environment, which then starts as "prod" |
| MainLaunch.Launcher.Dispatch | vertx-common-core-kt/src/main/kotlin/com/vertx/common/MainLaunch.java:136-147 | dispatch sets active from the first "-active=" argument and forwards the arguments unchanged |
| MainLaunch.Launcher.BeforeStartingVertx | vertx-common-core-kt/src/main/kotlin/com/vertx/common/MainLaunch.java:102-104 | a blank environment becomes "prod" |
| MainLaunch.BeforeDeployingVerticle | vertx-common-core-kt/src/main/kotlin/com/vertx/common/MainLaunch.java:113-117 | one instance, high availability on, the rest untouched |
| CronSchedulerHandler.Report | vertx-common-core-kt/src/main/kotlin/com/vertx/common/task/CronSchedulerHandler.kt:62-66 | the callback receives the scheduled job's returned string or the throwable's stack trace |
| CronSchedulerHandler.Trace | vertx-common-core-kt/src/main/kotlin/com/vertx/common/task/CronSchedulerHandler.kt:49-94 | the trace keeps initStart set only if it was set |
| CronSchedulerHandler.TraceRuns | vertx-common-core-kt/src/main/kotlin/com/vertx/common/task/CronSchedulerHandler.kt:49-94 | the trace holds one run per round Ran counts, and the callback receives those rounds' reports in order: the job's result or stack trace, then the stack trace of a callback that threw on the result |
| CronSchedulerHandler.ReportsOnePerRun | vertx-common-core-kt/src/main/kotlin/com/vertx/common/task/CronSchedulerHandler.kt:60-69 | while no callback throws on the job's result, the callback receives exactly one report per run, the job's own |
| CronSchedulerHandler.EveryOpenRoundRuns | vertx-common-core-kt/src/main/kotlin/com/vertx/common/task/CronSchedulerHandler.kt:49-94 | while every catch-block callback call returns (always, without a callback), every round that passes the gate runs, whether the previous run returned or threw |
| CronSchedulerHandler.FailedRecoveryStops | vertx-common-core-kt/src/main/kotlin/com/vertx/common/task/CronSchedulerHandler.kt:60-94 | the first run whose catch-block callback call throws is the last: start is not called again |
| CronSchedulerHandler.CallbackThrowingTwiceEndsSchedule | vertx-common-core-kt/src/main/kotlin/com/vertx/common/task/CronSchedulerHandler.kt:60-94 | a callback that throws on the result and again on the stack trace is called twice, then the exception leaves the coroutine: initStart stays and nothing is rescheduled |
| CronSchedulerHandler.GateClosedRunsNothing | vertx-common-core-kt/src/main/kotlin/com/vertx/common/task/CronSchedulerHandler.kt:50-56 | a closed gate on the first call runs and schedules nothing |
| CronSchedulerHandler.OneImmediateRun | vertx-common-core-kt/src/main/kotlin/com/vertx/common/task/CronSchedulerHandler.kt:59-71 | initStart gives exactly one immediate run, first; it stays set iff no round passes the gate or that run's exception escapes; later runs use the timer |
| CronSchedulerHandler.Start | vertx-common-core-kt/src/main/kotlin/com/vertx/common/task/CronSchedulerHandler.kt:49-94 | start with its re-invocations produces Trace and leaves initStart as Trace says |
| CronSchedulerHandler.RunOnce | vertx-common-core-kt/src/main/kotlin/com/vertx/common/task/CronSchedulerHandler.kt:59-91 | one run as RunEvents says: at once while initStart holds, else by the timer; the callback calls; initStart cleared iff the run was immediate and no exception escaped |
| RequestInterceptor.Credentials | example-web/src/main/kotlin/com/vertx/example/handler/RequestInterceptorHandler.kt:25-41 | a missing or blank header is 401 "null or blank"; not exactly two space-separated parts, or a scheme other than "Basic", is 401 "error"; an undecodable token throws; decoded text without ':' throws; a blank username or password is 401; otherwise the credentials are exactly the first two ':'-parts of the decoded text |
| RequestInterceptor.Intercept | example-web/src/main/kotlin/com/vertx/example/handler/RequestInterceptorHandler.kt:14-50 | no webServer section throws; ignored paths pass; otherwise a credential failure is returned as is, and parsed credentials pass iff the stored password is present, not blank and equal, else 401 "username/password is error" |
| RequestInterceptor.BasicAuthAccepted | example-web/src/main/kotlin/com/vertx/example/handler/RequestInterceptorHandler.kt:30-47 | "Basic" + a token decoding to user:password of a stored user passes |
| RequestInterceptor.PasswordWithColonTruncated | example-web/src/main/kotlin/com/vertx/example/handler/RequestInterceptorHandler.kt:35-37 | a password holding ':' is cut there: the full stored password is refused, its prefix accepted |
| RequestInterceptor.LowerCaseSchemeRefused | example-web/src/main/kotlin/com/vertx/example/handler/RequestInterceptorHandler.kt:30-34 | the scheme "basic" is refused with 401 |
| RequestInterceptor.NoColonThrows | example-web/src/main/kotlin/com/vertx/example/handler/RequestInterceptorHandler.kt:35-37 | decoded text without ':' makes the handler throw instead of answering 401 |

## Left out

- Characters are ASCII. Java's Unicode case mapping in `underlineName` and `lowercase()` is not modelled.
- MainLaunch.StartingActive: blankness is Kotlin's `isBlank` (`Text.IsBlank`). `MainLaunch.java:102` uses hutool's `StrUtil.isBlank`, which also counts `'\u0000'` and some Unicode filler characters as blank, so an `active` made only of those starts "prod" in the source but is kept in the model.
- Network I/O, timers, coroutines and threads are not modelled. Broker, database, event-bus and timer calls are recorded in an effect log. Each broker call's answer is modelled only as success or failure (`MqContract.Replies`). The persistence hook is modelled only as returning or throwing. The retry ledger is updated one delivery at a time, so concurrent deliveries are not modelled.
- Logging is not modelled, including the debug logs printed outside "prod".
- The envelope id comes from a UUID generator, so it is an input.
- jOOQ's rendering (`getSQL(ParamType.INLINED)`) is not modelled. A built statement is a `SqlModel.Statement` value plus the text the builder appends.
- Jackson (`mapTo`, `decodeValue`, `encode`) is not modelled. Its results are inputs.
- Legacy consumer decoding (`LegacyRabbitMq.Decoding`): the legacy consumer's `Json.decodeValue(body, MessageData::class.java)` (`common-rabbitmq/src/main/kotlin/com/vertx/rabbitmq/helper/RabbitMqHelper.kt:161`) is an input, including the class of `msg`. Since `T` is erased, a JSON-object `msg` would decode as a map and fail the `requestClass` test at `:168`, so every POJO message would be acked unhandled. `MessageData` has no no-argument constructor, so without Jackson's Kotlin module every decode would fail. Neither effect is modelled, because whether that module is registered is not part of this model.
- Reflection is modelled as the declared field names and values an `Entities.Row` lists.
- Base64 decoding and its charset are modelled as an input function that may fail.
- The Redis lookup of the interceptor is modelled as a map.
- MysqlHelper.Chunks: requires a batch size of at least 1. CollUtil.split with a smaller size is not modelled.
- MysqlHelper.SelectPage: the count row is taken as less than 2^63. Long overflow of the count is not modelled.
- Connection failures are modelled as a failing reply per query only. Failures of `getConnection`, `begin`, `commit` and `close` are not modelled.
- VertxLoadConfig.InitOutcome: reading the file and mapping it to AppConfig are inputs (`LoadResult`). Their content and the AppConfig fields are not modelled, so the loaded file is an opaque value.
- The text of UniqueAddressException, which prints the annotation object, is modelled only as the class name and the address.
- MainLaunch's Hazelcast cluster, event-bus and metrics options are not modelled.
- VertxCommandLauncher's own dispatch is modelled only as the arguments forwarded to it.
- The explicit-vertx overload of CronSchedulerHandler.start (vertx-common-core-kt/src/main/kotlin/com/vertx/common/task/CronSchedulerHandler.kt:100-142) follows the same gate and re-arm steps. It is covered by `Trace` and not modelled separately.
- BusHandler.Call: the returned future is modelled as a value, not as a pending promise.
- MysqlUtil calls common's `underlineName`, which `CommonStrUtil.UnderlineName` proves equal to the model's `StrUtil.UnderlineName` on every non-empty name.
- Some `update`, `delete` and `select` wrappers only execute the builder's statement and return its row count or rows. These are the ones in the mysql module's MysqlHelper, in MysqlClient and in vertx-common-mysql-kt's MysqlHelper. They are covered by their builders, because query execution is not modelled. `insert` of vertx-common-mysql-kt (its id rule) and of MysqlClient are modelled.
- The legacy nackMessage is part of `LegacyRabbitMq.Deliver`'s effects. It is not a separate method.
- MysqlHelper.SelectPage: its contract states only the null-result rule and the count query. The SELECT's tail is stated by `SelectPageTail` and `PageClauseValue`.
- BusHandler.RegisterAll: its own contract states only its length. `RegisterAllOutcome` states the rest.
- RabbitMq.Helper.OnDelivery: it follows the code as written, with a ledger that is never incremented. The counting ledger exists only as `RabbitMq.DeliverCounted`, with its lemmas.

## Findings

| source | as written | input that shows it | evidently intended | confidence | as-written member | corrected member |
|---|---|---|---|---|---|---|
| vertx-common-rabbitmq-kt/src/main/kotlin/com/vertx/rabbitmq/helper/RabbitMqHelper.kt:245-251 | a failed attempt is requeued while `retryCountMap[id] < maxRetry`, but no code path ever increments the count | maxRetry = 3 and a handler that always returns "fail": the message is requeued on every delivery, forever | each requeue counts one attempt, so after maxRetry requeues the message is acked | not executed | RabbitMq.RequeuedForever | RabbitMq.CountedRetriesEnd |
| vertx-common-rabbitmq-kt/src/main/kotlin/com/vertx/rabbitmq/helper/RabbitMqHelper.kt:221-225 | the consumer reads the payload from "msg", while MqMessageData, which the producers publish, serialises it as "body" | any message sent with sendMessageToExchange to a registered consumer: it is acked without reaching the handler | producer and consumer use the same property name | not executed | RabbitMq.PublishedEnvelopeNeverHandled | RabbitMq.ConsumableEnvelopeHandled |
| vertx-common-mysql-kt/src/main/kotlin/com/vertx/mysql/helper/MysqlHelper.kt:349-356 | the statement is rendered with its ";" and another ";" is appended | buildDeleteSql of any class: the text ends in ";;" | one ";" as in the other builders | not executed | MysqlHelper.DeleteEndsTwice | MysqlHelper.DeleteSqlOnce |
| vertx-common-mysql-kt/src/main/kotlin/com/vertx/mysql/helper/MysqlHelper.kt:222 | totalPages = count / pageSize + 1 | count = 20, pageSize = 10: 3 pages, and page 3 starts at offset 20, past the last row | ceil(count / pageSize) | not executed | MysqlHelper.TotalPagesExtraPage | MysqlHelper.PagesNeededExact |
| vertx-common-eventbus-kt/src/main/kotlin/com/vertx/eventbus/handler/BusHandler.kt:133-134 | the consumer hands `message.body()`, the JSON text `call` sent, to handleRequest without decoding it | a String service that answers whether its request is "ping", called with "ping": it receives "\"ping\"" and answers false; a service that overrides handleRequest with a Request type a String cannot be cast to fails every call with 500 | the body is decoded into the Request type before handleRequest, as `call` decodes the response | not executed | BusHandler.PingArrivesQuoted | BusHandler.PingDecoded |
