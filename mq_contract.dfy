/**
 * The types both RabbitMQ helpers work with: the exchange enums, the handler
 * contract (`RabbitMqHandler`), the JSON a delivery carries, the messages the
 * user's code is called with, and the broker calls the helpers issue, recorded
 * as an effect log instead of being performed.
 */
module MqContract {
  import opened Wrappers
  import opened Text

  /** RabbitMqExChangeTypeEnum. */
  datatype ExchangeType = DEFAULT | DIRECT | TOPIC | HEADERS | FANOUT

  /** The enum constant's `name` (also what `toString` gives). */
  function TypeName(t: ExchangeType): (r: string)
    ensures |r| > 0 && NoUpper(Lowercase(r))
  {
    match t
    case DEFAULT => "DEFAULT"
    case DIRECT => "DIRECT"
    case TOPIC => "TOPIC"
    case HEADERS => "HEADERS"
    case FANOUT => "FANOUT"
  }

  /** A Java class, by name: `messageType`, `requestClass`, a runtime `::class.java`. */
  type ClassName = string

  /**
   * One constant of an exchange enum (IRabbitMqExChangeEnum / RabbitMqExChangeEnum):
   * its constant name, type, exchange name, message class and declare flags.
   */
  datatype Exchange = Exchange(
    constName: string,
    kind: ExchangeType,
    exchanger: string,
    messageType: ClassName,
    durable: bool,
    autoDelete: bool)

  /** The enum's defaults: messageType String, durable, not auto-deleted. */
  function EnumConstant(constName: string, kind: ExchangeType, exchanger: string): Exchange {
    Exchange(constName, kind, exchanger, "String", true, false)
  }

  /** RabbitMqExChangeEnum.DEFAULT: the broker's default exchange, named "". */
  const DefaultExchange := EnumConstant("DEFAULT", DEFAULT, "")

  /** RabbitMqExChangeEnum.TESTRabbitMqExChangeEnum of vertx-common-rabbitmq-kt. */
  const TestExchange := Exchange("TESTRabbitMqExChangeEnum", FANOUT, "test", "User", true, false)

  /** An IModelEnum / ModelEnum constant: its constant name and its `modelName`. */
  datatype Module = Module(constName: string, modelName: string)

  /**
   * The configuration half of a RabbitMqHandler. `confirm` only exists on the
   * common-rabbitmq interface. The handler, persistence and callback functions
   * are not stored: what they return is an input of each operation.
   */
  datatype Handler = Handler(
    requestClass: ClassName,
    exchange: Exchange,
    moduleName: Module,
    queueName: string,
    date: string,
    durable: bool,
    exclusive: bool,
    confirm: bool,
    maxInternalQueueSize: int,
    autoAck: bool,
    maxRetry: int,
    retryInterval: int)

  /** TestCustomerHandler of vertx-common-rabbitmq-kt. */
  const TestCustomerHandler := Handler(
    "User", TestExchange, Module("TEST__MODEL", "test"), "test", "2023-08-03",
    true, false, false, 100, false, 3, 1000)

  /** A Java object handed to or returned by user code: its runtime class and its JSON text. */
  datatype Value = Value(cls: ClassName, text: string)

  /**
   * One value of a decoded JSON object. `JScalar` is a string, number or
   * boolean, with the text `getString` gives for it; `JObject` is a nested object.
   */
  datatype Json = JNull | JScalar(text: string) | JObject(obj: Value)

  /** A body as the consumer's `JsonObject(buffer)` sees it. */
  datatype Body = Unparseable | Parsed(fields: map<string, Json>)

  /** What is published: a JSON object built by the helper, or one user object as is. */
  datatype Payload = Envelope(fields: map<string, Json>) | Raw(value: Value)

  /** The exception classes the consumers tell apart. */
  datatype ExceptionKind = DecodeError | IllegalArgument | NullReference | ClassCast | Other

  /** A broker, timer or user-code call issued by a helper. */
  datatype Effect =
    | DeclareExchange(exchange: string, kind: string, durable: bool, autoDelete: bool)
    | DeclareQueue(queue: string, durable: bool, exclusive: bool, autoDelete: bool)
    | Bind(queue: string, exchange: string, routingKey: string)
    | Consume(queue: string, maxInternalQueueSize: int, keepMostRecent: bool, autoAck: bool)
    | Persist(payload: Payload)
    | Publish(exchange: string, routingKey: string, persistentTextPlain: bool, payload: Payload)
    | WaitConfirms(millis: int)
    | Handle(message: Value)
    | Callback(msg: string, msgId: string)
    | Ack(tag: int)
      /** basicNack(tag, multiple = false, requeue) issued from a timer after `delay` ms. */
    | Nack(tag: int, delay: int, requeue: bool)

  /** How a send or register call ended, when it threw. */
  datatype Failure =
    | QueueNameError      // underlineName on an empty string
    | DirectRejected
    | BlankExchanger
    | BlankQueueName
    | NullMessage         // `message!!`
    | TypeMismatch
    | ConfirmFailed       // waitForConfirms failed or timed out
    | PersistThrew        // the user's persistence hook threw
    | BrokerFailed        // a broker future failed; the failing call is the last effect

  /** What a call did before it returned or threw. */
  datatype Outcome = Outcome(effects: seq<Effect>, failure: Option<Failure>)

  /**
   * What the outside world answers during one helper call: whether the user's
   * persistence hook returns rather than throws, and whether each broker future
   * succeeds. The answer for a call that is never made is ignored.
   */
  datatype Replies = Replies(persisted: bool, exchangeDeclared: bool, queueDeclared: bool, bound: bool,
                             consumed: bool, published: bool, confirmed: bool)

  /** ConcurrentHashMap.getOrDefault(key, 0). */
  function CountOf(ledger: map<string, int>, key: string): int {
    if key in ledger then ledger[key] else 0
  }

  /** The message-id ledger and the log that a delivery leaves behind. */
  datatype Step = Step(ledger: map<string, int>, effects: seq<Effect>)

  /** No effect of the list acknowledges or requeues. */
  predicate NoAck(effects: seq<Effect>) { forall i :: 0 <= i < |effects| ==> !effects[i].Ack? }

  predicate NoNack(effects: seq<Effect>) { forall i :: 0 <= i < |effects| ==> !effects[i].Nack? }

  predicate NoHandle(effects: seq<Effect>) { forall i :: 0 <= i < |effects| ==> !effects[i].Handle? }

  predicate NoPublish(effects: seq<Effect>) { forall i :: 0 <= i < |effects| ==> !effects[i].Publish? }
}
