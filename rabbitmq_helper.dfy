/**
 * `RabbitMqHelper` of vertx-common-rabbitmq-kt: queue naming, queue and exchange
 * registration, the two send paths and the consumer's per-delivery state machine
 * with its message-id retry ledger (`retryCountMap`).
 *
 * Broker calls, timers and user callbacks are appended to an effect log. What the
 * broker, the JSON library and the user's handler answer is an input. The global
 * `active` and `appConfig.mq.rabbitmq.sendConfirm` are parameters.
 */
module RabbitMq {
  import opened Wrappers
  import opened Text
  import opened StrUtil
  import opened MqContract

  // ---------------------------------------------------------------- queue names

  /** The six dot-separated parts of a queue name; None where underlineName throws. */
  function QueueNameParts(active: string, h: Handler): (r: Option<seq<string>>)
    ensures r.None? <==> h.moduleName.modelName == [] || h.exchange.exchanger == []
    ensures r.Some? ==> |r.value| == 6 && r.value[0] == active && r.value[2] == h.queueName && r.value[3] == h.date
    ensures r.Some? ==> NoUpper(r.value[1]) && NoUpper(r.value[4]) && NoUpper(r.value[5])
  {
    var model := Lowercase(h.moduleName.modelName);
    var exchanger := Lowercase(h.exchange.exchanger);
    if model == [] || exchanger == [] then None
    else
      UnderlineNoUpper(model);
      UnderlineNoUpper(exchanger);
      Some([active, UnderlineName(model), h.queueName, h.date, UnderlineName(exchanger),
            Lowercase(TypeName(h.exchange.kind))])
  }

  /** assembleQueueName: env.model.queue.date.exchanger.type. */
  function QueueName(active: string, h: Handler): (r: Option<string>)
    ensures r.None? <==> h.moduleName.modelName == [] || h.exchange.exchanger == []
  {
    match QueueNameParts(active, h)
    case None => None
    case Some(parts) => Some(Join(parts, '.'))
  }

  /** The name parses back into its parts when none of the inputs contains '.'. */
  lemma QueueNameSplits(active: string, h: Handler)
    requires QueueName(active, h).Some?
    requires '.' !in active && '.' !in h.moduleName.modelName && '.' !in h.queueName
    requires '.' !in h.date && '.' !in h.exchange.exchanger
    ensures Split(QueueName(active, h).value, '.') == QueueNameParts(active, h).value
  {
    var parts := QueueNameParts(active, h).value;
    var model := Lowercase(h.moduleName.modelName);
    var exchanger := Lowercase(h.exchange.exchanger);
    LowercaseAvoids(h.moduleName.modelName, '.');
    LowercaseAvoids(h.exchange.exchanger, '.');
    UnderlineAvoids(model, '.');
    UnderlineAvoids(exchanger, '.');
    LowercaseAvoids(TypeName(h.exchange.kind), '.');
    SplitJoin(parts, '.');
  }

  /** The name always holds a '.', so the blank-name check of sendMessageToQueue cannot fire. */
  lemma QueueNameNotBlank(active: string, h: Handler)
    requires QueueName(active, h).Some?
    ensures !IsBlank(QueueName(active, h).value)
  {
    var parts := QueueNameParts(active, h).value;
    var name := Join(parts, '.');
    assert name == parts[0] + ['.'] + Join(parts[1..], '.');
    assert name[|active|] == '.';
  }

  /** The DEFAULT exchange is named "", so every queue-name use throws for it. */
  lemma DefaultExchangeHasNoQueueName(active: string, h: Handler)
    requires h.exchange == DefaultExchange
    ensures QueueName(active, h) == None
  {
  }

  /** TestCustomerHandler in environment "dev" matches its @UniqueAddress value. */
  lemma TestCustomerQueueName()
    ensures QueueName("dev", TestCustomerHandler) == Some("dev.test.test.2023-08-03.test.fanout")
  {
    var h := TestCustomerHandler;
    var test := "test";
    LowercaseFixed(test);
    UnderlineFixed(test);
    var fanout := Lowercase("FANOUT");
    assert fanout == "fanout" by {
      assert |fanout| == 6;
      assert fanout[0] == 'f' && fanout[1] == 'a' && fanout[2] == 'n';
      assert fanout[3] == 'o' && fanout[4] == 'u' && fanout[5] == 't';
    }
    var dev, date := "dev", "2023-08-03";
    assert QueueNameParts(dev, h) == Some([dev, test, test, date, test, fanout]);
    TestCustomerJoin(dev, test, test, date, test, fanout);
    TestCustomerLiteral();
  }

  /** The @UniqueAddress literal, spelled part by part. */
  lemma TestCustomerLiteral()
    ensures "dev" + "." + ("test" + "." + ("test" + "." + ("2023-08-03" + "." + ("test" + "." + "fanout"))))
      == "dev.test.test.2023-08-03.test.fanout"
  {
  }

  /** A six-part name, written out with its five separators. */
  lemma TestCustomerJoin(a: string, b: string, c: string, d: string, e: string, f: string)
    ensures Join([a, b, c, d, e, f], '.') == a + "." + (b + "." + (c + "." + (d + "." + (e + "." + f))))
  {
    JoinCons(e, [f], '.');
    assert [d, e, f] == [d] + [e, f];
    JoinCons(d, [e, f], '.');
    assert [c, d, e, f] == [c] + [d, e, f];
    JoinCons(c, [d, e, f], '.');
    assert [b, c, d, e, f] == [b] + [c, d, e, f];
    JoinCons(b, [c, d, e, f], '.');
    assert [a, b, c, d, e, f] == [a] + [b, c, d, e, f];
    JoinCons(a, [b, c, d, e, f], '.');
  }

  // ---------------------------------------------------------------- registration

  /**
   * registerQueue: exchange declare unless DEFAULT, type check, queue declare, bind.
   * Each broker call is awaited, so the first one that fails ends the call.
   */
  function RegisterQueueOutcome(active: string, h: Handler, replies: Replies): Outcome {
    match QueueName(active, h)
    case None => Outcome([], Some(QueueNameError))
    case Some(q) =>
      var e := h.exchange;
      var declare := DeclareExchange(e.exchanger, Lowercase(TypeName(e.kind)), e.durable, e.autoDelete);
      if e != DefaultExchange && !replies.exchangeDeclared then Outcome([declare], Some(BrokerFailed))
      else
        var declared := if e == DefaultExchange then [] else [declare];
        var queued := declared + [DeclareQueue(q, h.durable, h.exclusive, h.autoAck)];
        if e.messageType != h.requestClass then Outcome(declared, None)
        else if !replies.queueDeclared then Outcome(queued, Some(BrokerFailed))
        else Outcome(queued + [Bind(q, e.exchanger, "")], if replies.bound then None else Some(BrokerFailed))
  }

  predicate DeclaresQueue(effects: seq<Effect>) {
    exists i :: 0 <= i < |effects| && effects[i].DeclareQueue?
  }

  /**
   * The topology rules of registerQueue: the exchange is declared exactly when it
   * is not DEFAULT; a queue is declared exactly when the message types match and the
   * exchange declaration (if any) succeeded; the call fails exactly when a broker call
   * it makes fails; on success a declared queue is then bound with key "", and the
   * consumer's autoAck fills the queue's auto-delete flag.
   */
  lemma RegisterQueueTopology(active: string, h: Handler, replies: Replies)
    requires QueueName(active, h).Some?
    ensures var o := RegisterQueueOutcome(active, h, replies);
      var e := h.exchange;
      var declaredOk := e == DefaultExchange || replies.exchangeDeclared;
      && (|o.effects| > 0 && o.effects[0].DeclareExchange? <==> e != DefaultExchange)
      && (DeclaresQueue(o.effects) <==> declaredOk && e.messageType == h.requestClass)
      && (o.failure.Some? <==>
            !declaredOk || (e.messageType == h.requestClass && (!replies.queueDeclared || !replies.bound)))
      && (o.failure.Some? ==> o.failure == Some(BrokerFailed))
      && (o.failure.None? && DeclaresQueue(o.effects) ==>
            o.effects[|o.effects| - 2] == DeclareQueue(QueueName(active, h).value, h.durable, h.exclusive, h.autoAck)
            && o.effects[|o.effects| - 1] == Bind(QueueName(active, h).value, h.exchange.exchanger, ""))
  {
    var o := RegisterQueueOutcome(active, h, replies);
    var e := h.exchange;
    if e != DefaultExchange && !replies.exchangeDeclared {
      assert !DeclaresQueue(o.effects);
    } else if e.messageType != h.requestClass {
      assert !DeclaresQueue(o.effects);
    } else if !replies.queueDeclared {
      assert o.effects[|o.effects| - 1].DeclareQueue?;
    } else {
      assert o.effects[|o.effects| - 2].DeclareQueue?;
    }
  }

  /** registerConsumer: registerQueue, then a consumer on the queue, even after a type mismatch. */
  function RegisterConsumerOutcome(active: string, h: Handler, replies: Replies): Outcome {
    var registered := RegisterQueueOutcome(active, h, replies);
    match QueueName(active, h)
    case None => registered
    case Some(q) =>
      if registered.failure.Some? then registered
      else
        Outcome(registered.effects + [Consume(q, h.maxInternalQueueSize, false, h.autoAck)],
                if replies.consumed then None else Some(BrokerFailed))
  }

  /**
   * A mismatched message type leaves the queue undeclared, yet once the exchange
   * (if any) is declared the consumer is still started on it.
   */
  lemma ConsumerStartedDespiteMismatch(active: string, h: Handler, replies: Replies)
    requires QueueName(active, h).Some? && h.exchange.messageType != h.requestClass
    ensures var o := RegisterConsumerOutcome(active, h, replies);
      && !DeclaresQueue(o.effects)
      && ((h.exchange == DefaultExchange || replies.exchangeDeclared) ==>
            o.effects[|o.effects| - 1] == Consume(QueueName(active, h).value, h.maxInternalQueueSize, false, h.autoAck)
            && (o.failure.None? <==> replies.consumed))
  {
    var o := RegisterConsumerOutcome(active, h, replies);
    var reg := RegisterQueueOutcome(active, h, replies);
    assert !DeclaresQueue(reg.effects);
    if h.exchange == DefaultExchange || replies.exchangeDeclared {
      assert o.effects == reg.effects + [o.effects[|o.effects| - 1]];
    }
  }

  // ---------------------------------------------------------------- sending

  /** MqMessageData(message) as Jackson writes it: properties "body" and "id". */
  function EnvelopeOf(id: string, message: Option<Value>): Payload {
    Envelope(map["body" := (if message.None? then JNull else JObject(message.value)), "id" := JScalar(id)])
  }

  /** The publish, then a 5-second waitForConfirms when sendConfirm is set. */
  function Confirming(effects: seq<Effect>, sendConfirm: bool, confirmed: bool): Outcome {
    if !sendConfirm then Outcome(effects, None)
    else Outcome(effects + [WaitConfirms(5000)], if confirmed then None else Some(ConfirmFailed))
  }

  /** basicPublish (the last of `effects`) and its `compose` step: a failed publish skips the confirm. */
  function Publishing(effects: seq<Effect>, sendConfirm: bool, replies: Replies): Outcome {
    if !replies.published then Outcome(effects, Some(BrokerFailed))
    else Confirming(effects, sendConfirm, replies.confirmed)
  }

  /**
   * sendMessageToExchange. `id` is the envelope's fresh UUID; a result the persistence
   * hook returns is only logged, while a throw from it ends the send.
   */
  function SendToExchangeOutcome(h: Handler, message: Option<Value>, id: string, sendConfirm: bool, replies: Replies): Outcome {
    var e := h.exchange;
    if e.kind == DIRECT then Outcome([], Some(DirectRejected))
    else if IsBlank(e.exchanger) then Outcome([], Some(BlankExchanger))
    else
      var envelope := EnvelopeOf(id, message);
      if !replies.persisted then Outcome([Persist(envelope)], Some(PersistThrew))
      else if message.None? then Outcome([Persist(envelope)], Some(NullMessage))
      else if e.messageType != message.value.cls then Outcome([Persist(envelope)], Some(TypeMismatch))
      else Publishing([Persist(envelope), Publish(e.exchanger, "", true, envelope)], sendConfirm, replies)
  }

  /**
   * A message reaches the exchange exactly when the exchange is not DIRECT, its name
   * is not blank, the persistence hook returns and the message has the exchange's
   * type; it is then persisted first and broadcast with routing key "". The send
   * succeeds exactly when that publish, and the confirm when sendConfirm is set, succeed.
   */
  lemma ExchangePublishRule(h: Handler, message: Option<Value>, id: string, sendConfirm: bool, replies: Replies)
    ensures var o := SendToExchangeOutcome(h, message, id, sendConfirm, replies);
      var e := h.exchange;
      var publishes := e.kind != DIRECT && !IsBlank(e.exchanger) && replies.persisted
                       && message.Some? && message.value.cls == e.messageType;
      && (!NoPublish(o.effects) <==> publishes)
      && (publishes ==>
            o.effects[0] == Persist(EnvelopeOf(id, message))
            && o.effects[1] == Publish(e.exchanger, "", true, EnvelopeOf(id, message)))
      && (o.failure.None? <==> publishes && replies.published && (sendConfirm ==> replies.confirmed))
      && (o.failure == Some(PersistThrew) <==> e.kind != DIRECT && !IsBlank(e.exchanger) && !replies.persisted)
      && (o.failure == Some(BrokerFailed) <==> publishes && !replies.published)
  {
    var o := SendToExchangeOutcome(h, message, id, sendConfirm, replies);
    var e := h.exchange;
    if e.kind != DIRECT && !IsBlank(e.exchanger) && replies.persisted
       && message.Some? && message.value.cls == e.messageType {
      assert o.effects[1].Publish?;
    }
  }

  /** DIRECT is refused before anything else happens; a blank name before persisting. */
  lemma ExchangeGuardsFirst(h: Handler, message: Option<Value>, id: string, sendConfirm: bool, replies: Replies)
    ensures h.exchange.kind == DIRECT ==>
      SendToExchangeOutcome(h, message, id, sendConfirm, replies) == Outcome([], Some(DirectRejected))
    ensures h.exchange.kind != DIRECT && IsBlank(h.exchange.exchanger) ==>
      SendToExchangeOutcome(h, message, id, sendConfirm, replies) == Outcome([], Some(BlankExchanger))
  {
  }

  /** sendMessageToQueue: publish through the handler's exchange with the queue name as routing key. */
  function SendToQueueOutcome(active: string, h: Handler, message: Option<Value>, id: string, sendConfirm: bool,
                              replies: Replies): Outcome {
    match QueueName(active, h)
    case None => Outcome([], Some(QueueNameError))
    case Some(q) =>
      if IsBlank(q) then Outcome([], Some(BlankQueueName))
      else
        var envelope := EnvelopeOf(id, message);
        if !replies.persisted then Outcome([Persist(envelope)], Some(PersistThrew))
        else if message.None? then Outcome([Persist(envelope)], Some(NullMessage))
        else if h.exchange.messageType != message.value.cls then Outcome([Persist(envelope)], Some(TypeMismatch))
        else Publishing([Persist(envelope), Publish(h.exchange.exchanger, q, false, envelope)], sendConfirm, replies)
  }

  /**
   * Sending to a queue: the blank-name check never fires; a throwing persistence hook
   * ends the send before any check; a message of the wrong type is persisted and then
   * refused, never published; a well-typed one is published with the queue name as
   * routing key, and the send succeeds exactly when that publish, and the confirm when
   * sendConfirm is set, succeed.
   */
  lemma QueueSendRule(active: string, h: Handler, message: Option<Value>, id: string, sendConfirm: bool, replies: Replies)
    ensures var o := SendToQueueOutcome(active, h, message, id, sendConfirm, replies);
      var named := QueueName(active, h).Some?;
      var publishes := named && replies.persisted && message.Some? && message.value.cls == h.exchange.messageType;
      && o.failure != Some(BlankQueueName)
      && (!named ==> o == Outcome([], Some(QueueNameError)))
      && (named && !replies.persisted ==> o == Outcome([Persist(EnvelopeOf(id, message))], Some(PersistThrew)))
      && (named && replies.persisted && message.Some? && message.value.cls != h.exchange.messageType ==>
            o == Outcome([Persist(EnvelopeOf(id, message))], Some(TypeMismatch)))
      && (!NoPublish(o.effects) <==> publishes)
      && (publishes ==>
            o.effects[1] == Publish(h.exchange.exchanger, QueueName(active, h).value, false, EnvelopeOf(id, message)))
      && (o.failure.None? <==> publishes && replies.published && (sendConfirm ==> replies.confirmed))
      && (o.failure == Some(BrokerFailed) <==> publishes && !replies.published)
  {
    var o := SendToQueueOutcome(active, h, message, id, sendConfirm, replies);
    if QueueName(active, h).Some? {
      QueueNameNotBlank(active, h);
      if replies.persisted && message.Some? && message.value.cls == h.exchange.messageType {
        assert o.effects[1].Publish?;
      }
    }
  }

  // ---------------------------------------------------------------- consuming

  /** What mapTo(requestClass) does with the "msg" object. */
  datatype Mapping = MapThrew(message: Option<string>) | MapNull | Mapped(value: Value)

  /** What the user's handler does: return a result (null or blank = success) or throw. */
  datatype HandlerResult = Returned(res: Option<string>) | Threw(kind: ExceptionKind, message: Option<string>)

  /** What one call of the user's callback does: return, or throw. */
  datatype CallOutcome = Completed | Raised(kind: ExceptionKind, message: Option<string>)

  /**
   * The library's and the user's answers for one delivery: `castError` is a
   * ClassCastException's text, `callback` what the callback does when the try block
   * calls it after the handler, `recall` what it does when the catch block calls it.
   */
  datatype Reaction = Reaction(castError: string, mapped: Mapping, result: HandlerResult,
                               callback: CallOutcome, recall: CallOutcome)

  datatype Delivery = Delivery(tag: int, body: Body)

  /** getString on a non-null value. */
  function IdText(j: Json): string {
    match j
    case JNull => ""
    case JScalar(t) => t
    case JObject(v) => v.text
  }

  /** ackMessage: forget the id in the ledger, then ack unless the consumer auto-acks. */
  function AckStep(ledger: map<string, int>, autoAck: bool, tag: int, msgId: string): (s: Step)
    ensures msgId !in s.ledger
  {
    Step(ledger - {msgId}, if autoAck then [] else [Ack(tag)])
  }

  /** nackMessage: a requeueing nack after the retry interval. */
  function NackEffect(tag: int, retryInterval: int): Effect {
    Nack(tag, retryInterval, true)
  }

  /**
   * The catch block: callback when an id was parsed, then ack a decode/argument failure
   * or requeue. A callback that throws here ends the coroutine before either.
   */
  function CatchStep(h: Handler, ledger: map<string, int>, tag: int, msgId: string, kind: ExceptionKind,
                     message: Option<string>, recall: CallOutcome): Step {
    var called := if IsBlank(msgId) then [] else [Callback(message.GetOr(""), msgId)];
    if !IsBlank(msgId) && recall.Raised? then Step(ledger, called)
    else if kind == DecodeError || kind == IllegalArgument then
      var acked := AckStep(ledger, h.autoAck, tag, "");
      Step(acked.ledger, called + acked.effects)
    else
      Step(ledger, called + (if h.autoAck then [] else [NackEffect(tag, h.retryInterval)]))
  }

  /**
   * After the handler ran for a parsed message with id `msgId`: the callback with the
   * failure text or "", then requeue or ack; a callback that throws goes to the catch block.
   */
  function HandledStep(h: Handler, ledger: map<string, int>, tag: int, msgId: string, result: HandlerResult,
                       callback: CallOutcome, recall: CallOutcome): Step {
    match result
    case Threw(kind, message) => CatchStep(h, ledger, tag, msgId, kind, message, recall)
    case Returned(res) =>
      if callback.Raised? then
        var text := if res.Some? && !IsBlank(res.value) then res.value else "";
        var caught := CatchStep(h, ledger, tag, msgId, callback.kind, callback.message, recall);
        Step(caught.ledger, [Callback(text, msgId)] + caught.effects)
      else if res.Some? && !IsBlank(res.value) then
        if CountOf(ledger, msgId) >= h.maxRetry then
          var acked := AckStep(ledger, h.autoAck, tag, msgId);
          Step(acked.ledger, [Callback(res.value, msgId)] + acked.effects)
        else
          Step(ledger, [Callback(res.value, msgId), NackEffect(tag, h.retryInterval)])
      else
        var acked := AckStep(ledger, h.autoAck, tag, msgId);
        Step(acked.ledger, [Callback("", msgId)] + acked.effects)
  }

  /**
   * The consumer's handler for one delivery: decode guards, mapTo, the user's
   * handler, the callback, then ack or delayed requeue. The ledger is only ever
   * shrunk: no entry is added and no count changes.
   */
  function Deliver(h: Handler, ledger: map<string, int>, d: Delivery, r: Reaction): (s: Step)
    ensures s.ledger.Keys <= ledger.Keys
    ensures forall k :: k in s.ledger ==> s.ledger[k] == ledger[k]
  {
    match d.body
    case Unparseable => CatchStep(h, ledger, d.tag, "", DecodeError, None, r.recall)
    case Parsed(f) =>
      if "id" !in f then AckStep(ledger, h.autoAck, d.tag, "")
      else if f["id"].JNull? then CatchStep(h, ledger, d.tag, "", NullReference, None, r.recall)
      else
        var msgId := IdText(f["id"]);
        if IsBlank(msgId) then AckStep(ledger, h.autoAck, d.tag, "")
        else if "msg" !in f then AckStep(ledger, h.autoAck, d.tag, msgId)
        else
          match f["msg"]
          case JNull => AckStep(ledger, h.autoAck, d.tag, msgId)
          case JScalar(_) => CatchStep(h, ledger, d.tag, msgId, ClassCast, Some(r.castError), r.recall)
          case JObject(_) =>
            match r.mapped
            case MapThrew(message) => CatchStep(h, ledger, d.tag, msgId, IllegalArgument, message, r.recall)
            case MapNull => AckStep(ledger, h.autoAck, d.tag, msgId)
            case Mapped(v) =>
              var handled := HandledStep(h, ledger, d.tag, msgId, r.result, r.callback, r.recall);
              Step(handled.ledger, [Handle(v)] + handled.effects)
  }

  /** The id the consumer reads from a body, "" when there is none. */
  function ParsedId(d: Delivery): string {
    if d.body.Parsed? && "id" in d.body.fields then IdText(d.body.fields["id"]) else ""
  }

  /** A well-formed message whose handler keeps returning a failure text, which the callback accepts. */
  predicate FailingAttempt(d: Delivery, r: Reaction) {
    && d.body.Parsed? && "id" in d.body.fields && !d.body.fields["id"].JNull?
    && !IsBlank(ParsedId(d))
    && "msg" in d.body.fields && d.body.fields["msg"].JObject?
    && r.mapped.Mapped?
    && r.result.Returned? && r.result.res.Some? && !IsBlank(r.result.res.value)
    && r.callback.Completed?
  }

  /** Decode guards ack without calling the handler; a missing or blank id is acked under key "". */
  lemma DecodeGuardsAck(h: Handler, ledger: map<string, int>, d: Delivery, r: Reaction)
    requires d.body.Parsed?
    ensures var f := d.body.fields;
      ("id" !in f || (!f["id"].JNull? && IsBlank(IdText(f["id"])))) ==>
        Deliver(h, ledger, d, r) == AckStep(ledger, h.autoAck, d.tag, "")
    ensures var f := d.body.fields;
      ("id" in f && !f["id"].JNull? && !IsBlank(IdText(f["id"]))
       && ("msg" !in f || f["msg"].JNull? || (f["msg"].JObject? && r.mapped.MapNull?))) ==>
        Deliver(h, ledger, d, r) == AckStep(ledger, h.autoAck, d.tag, IdText(f["id"]))
  {
  }

  /**
   * A failing handler result is reported through the callback; while the ledger
   * count is below maxRetry a requeueing nack is sent, whatever autoAck says, and
   * otherwise the message is acked.
   */
  lemma FailureRequeuesEvenUnderAutoAck(h: Handler, ledger: map<string, int>, d: Delivery, r: Reaction)
    requires FailingAttempt(d, r)
    ensures var id := ParsedId(d);
      var res := r.result.res.value;
      var s := Deliver(h, ledger, d, r);
      && (CountOf(ledger, id) < h.maxRetry ==>
            s == Step(ledger, [Handle(r.mapped.value), Callback(res, id), Nack(d.tag, h.retryInterval, true)]))
      && (CountOf(ledger, id) >= h.maxRetry ==>
            s == Step(ledger - {id}, [Handle(r.mapped.value), Callback(res, id)] + (if h.autoAck then [] else [Ack(d.tag)])))
  {
  }

  /**
   * Success: callback with "" and the id, then ack; the id leaves the ledger. A callback
   * that throws skips the ack: the catch block handles its exception instead.
   */
  lemma SuccessAcks(h: Handler, ledger: map<string, int>, d: Delivery, r: Reaction)
    requires d.body.Parsed? && "id" in d.body.fields && !d.body.fields["id"].JNull? && !IsBlank(ParsedId(d))
    requires "msg" in d.body.fields && d.body.fields["msg"].JObject? && r.mapped.Mapped?
    requires r.result.Returned? && (r.result.res.None? || IsBlank(r.result.res.value))
    ensures var id := ParsedId(d);
      r.callback.Completed? ==>
        Deliver(h, ledger, d, r)
          == Step(ledger - {id}, [Handle(r.mapped.value), Callback("", id)] + (if h.autoAck then [] else [Ack(d.tag)]))
    ensures var id := ParsedId(d);
      r.callback.Raised? ==>
        var caught := CatchStep(h, ledger, d.tag, id, r.callback.kind, r.callback.message, r.recall);
        Deliver(h, ledger, d, r) == Step(caught.ledger, [Handle(r.mapped.value), Callback("", id)] + caught.effects)
  {
  }

  /**
   * A handled message whose success callback throws (anything but a decode or argument
   * exception) is called back a second time with the exception's message and requeued,
   * never acked, when the consumer does not auto-ack and the second call returns.
   */
  lemma ThrowingSuccessCallbackRequeues(h: Handler, ledger: map<string, int>, d: Delivery, r: Reaction)
    requires d.body.Parsed? && "id" in d.body.fields && !d.body.fields["id"].JNull? && !IsBlank(ParsedId(d))
    requires "msg" in d.body.fields && d.body.fields["msg"].JObject? && r.mapped.Mapped?
    requires r.result.Returned? && (r.result.res.None? || IsBlank(r.result.res.value))
    requires r.callback.Raised? && r.callback.kind != DecodeError && r.callback.kind != IllegalArgument
    requires r.recall.Completed? && !h.autoAck
    ensures var id := ParsedId(d);
      Deliver(h, ledger, d, r)
        == Step(ledger, [Handle(r.mapped.value), Callback("", id), Callback(r.callback.message.GetOr(""), id),
                         Nack(d.tag, h.retryInterval, true)])
  {
  }

  /**
   * The catch block: a DecodeException or IllegalArgumentException is acked and
   * never requeued; any other exception is requeued exactly when the consumer
   * does not auto-ack; the callback fires only once a non-blank id was read.
   */
  lemma ExceptionRules(h: Handler, ledger: map<string, int>, tag: int, msgId: string, kind: ExceptionKind,
                        message: Option<string>, recall: CallOutcome)
    ensures var s := CatchStep(h, ledger, tag, msgId, kind, message, recall);
      && (!IsBlank(msgId) && recall.Raised? ==> s == Step(ledger, [Callback(message.GetOr(""), msgId)]))
      && ((IsBlank(msgId) || recall.Completed?) && (kind == DecodeError || kind == IllegalArgument) ==>
            NoNack(s.effects) && s.ledger == ledger - {""})
      && ((IsBlank(msgId) || recall.Completed?) && kind != DecodeError && kind != IllegalArgument ==>
            s.ledger == ledger && NoAck(s.effects) && (NoNack(s.effects) <==> h.autoAck))
      && (|s.effects| > 0 && s.effects[0].Callback? <==> !IsBlank(msgId))
  {
    var s := CatchStep(h, ledger, tag, msgId, kind, message, recall);
    if (IsBlank(msgId) || recall.Completed?) && kind != DecodeError && kind != IllegalArgument && !h.autoAck {
      assert s.effects[|s.effects| - 1].Nack?;
    }
  }

  /** A body that is not a JSON object is acked, never requeued, and never reaches the handler. */
  lemma PoisonMessageAcked(h: Handler, ledger: map<string, int>, d: Delivery, r: Reaction)
    requires d.body.Unparseable?
    ensures Deliver(h, ledger, d, r) == AckStep(ledger, h.autoAck, d.tag, "")
  {
  }

  /** Under autoAck no delivery is ever acked by the helper. */
  lemma AutoAckNeverAcks(h: Handler, ledger: map<string, int>, d: Delivery, r: Reaction)
    requires h.autoAck
    ensures NoAck(Deliver(h, ledger, d, r).effects)
  {
    match d.body
    case Unparseable =>
      CatchNoAck(h, ledger, d.tag, "", DecodeError, None, r.recall);
    case Parsed(f) =>
      if "id" in f && f["id"].JNull? {
        CatchNoAck(h, ledger, d.tag, "", NullReference, None, r.recall);
      } else if "id" in f && !IsBlank(IdText(f["id"])) && "msg" in f {
        var msgId := IdText(f["id"]);
        match f["msg"]
        case JNull =>
        case JScalar(_) =>
          CatchNoAck(h, ledger, d.tag, msgId, ClassCast, Some(r.castError), r.recall);
        case JObject(_) =>
          match r.mapped
          case MapThrew(message) =>
            CatchNoAck(h, ledger, d.tag, msgId, IllegalArgument, message, r.recall);
          case MapNull =>
          case Mapped(v) =>
            var handled := HandledStep(h, ledger, d.tag, msgId, r.result, r.callback, r.recall);
            HandledNoAck(h, ledger, d.tag, msgId, r.result, r.callback, r.recall);
            assert Deliver(h, ledger, d, r).effects == [Handle(v)] + handled.effects;
            assert forall i :: 1 <= i < |handled.effects| + 1 ==>
              ([Handle(v)] + handled.effects)[i] == handled.effects[i - 1];
      }
  }

  /** Under autoAck the catch block never acks. */
  lemma CatchNoAck(h: Handler, ledger: map<string, int>, tag: int, msgId: string, kind: ExceptionKind,
                    message: Option<string>, recall: CallOutcome)
    requires h.autoAck
    ensures NoAck(CatchStep(h, ledger, tag, msgId, kind, message, recall).effects)
  {
  }

  /** Under autoAck nothing after the user's handler acks. */
  lemma HandledNoAck(h: Handler, ledger: map<string, int>, tag: int, msgId: string, result: HandlerResult,
                     callback: CallOutcome, recall: CallOutcome)
    requires h.autoAck
    ensures NoAck(HandledStep(h, ledger, tag, msgId, result, callback, recall).effects)
  {
    if result.Threw? {
      CatchNoAck(h, ledger, tag, msgId, result.kind, result.message, recall);
    } else if callback.Raised? {
      var res := result.res;
      var text := if res.Some? && !IsBlank(res.value) then res.value else "";
      var caught := CatchStep(h, ledger, tag, msgId, callback.kind, callback.message, recall);
      CatchNoAck(h, ledger, tag, msgId, callback.kind, callback.message, recall);
      assert HandledStep(h, ledger, tag, msgId, result, callback, recall).effects == [Callback(text, msgId)] + caught.effects;
      assert forall i :: 1 <= i < |caught.effects| + 1 ==>
        ([Callback(text, msgId)] + caught.effects)[i] == caught.effects[i - 1];
    }
  }

  /** n deliveries of the same message, one after the other. */
  function Redeliver(h: Handler, ledger: map<string, int>, d: Delivery, r: Reaction, n: nat): Step
    decreases n
  {
    if n == 0 then Step(ledger, [])
    else
      var first := Deliver(h, ledger, d, r);
      var rest := Redeliver(h, first.ledger, d, r, n - 1);
      Step(rest.ledger, first.effects + rest.effects)
  }

  function Repeat<T>(block: seq<T>, n: nat): (r: seq<T>)
    ensures |r| == n * |block|
  {
    if n == 0 then [] else block + Repeat(block, n - 1)
  }

  /**
   * The ledger is never incremented, so a message whose handler keeps failing is
   * requeued on every delivery and never acked while maxRetry exceeds its count.
   */
  lemma {:induction false} RequeuedForever(h: Handler, ledger: map<string, int>, d: Delivery, r: Reaction, n: nat)
    requires FailingAttempt(d, r) && CountOf(ledger, ParsedId(d)) < h.maxRetry
    ensures Redeliver(h, ledger, d, r, n)
      == Step(ledger, Repeat([Handle(r.mapped.value), Callback(r.result.res.value, ParsedId(d)),
                              Nack(d.tag, h.retryInterval, true)], n))
    decreases n
  {
    if n > 0 {
      FailureRequeuesEvenUnderAutoAck(h, ledger, d, r);
      RequeuedForever(h, ledger, d, r, n - 1);
    }
  }

  /** Starting from an empty ledger, which no code path ever fills, every failure is requeued when maxRetry > 0. */
  lemma NoRetryLimit(h: Handler, d: Delivery, r: Reaction, n: nat)
    requires FailingAttempt(d, r) && h.maxRetry > 0
    ensures NoAck(Redeliver(h, map[], d, r, n).effects)
  {
    var block := [Handle(r.mapped.value), Callback(r.result.res.value, ParsedId(d)), Nack(d.tag, h.retryInterval, true)];
    RequeuedForever(h, map[], d, r, n);
    RepeatNoAck(block, n);
  }

  lemma {:induction false} RepeatNoAck(block: seq<Effect>, n: nat)
    requires NoAck(block)
    ensures NoAck(Repeat(block, n))
    decreases n
  {
    if n > 0 {
      RepeatNoAck(block, n - 1);
      var r := Repeat(block, n);
      assert r == block + Repeat(block, n - 1);
      forall i | 0 <= i < |r|
        ensures !r[i].Ack?
      {
        if i >= |block| {
          assert r[i] == Repeat(block, n - 1)[i - |block|];
        }
      }
    }
  }

  /**
   * The evidently intended retry ledger: a requeue after a handler failure counts
   * one more attempt for the message id.
   */
  function DeliverCounted(h: Handler, ledger: map<string, int>, d: Delivery, r: Reaction): Step {
    var s := Deliver(h, ledger, d, r);
    var id := ParsedId(d);
    if FailingAttempt(d, r) && CountOf(ledger, id) < h.maxRetry then
      Step(ledger[id := CountOf(ledger, id) + 1], s.effects)
    else s
  }

  function RedeliverCounted(h: Handler, ledger: map<string, int>, d: Delivery, r: Reaction, n: nat): Step
    decreases n
  {
    if n == 0 then Step(ledger, [])
    else
      var first := DeliverCounted(h, ledger, d, r);
      var rest := RedeliverCounted(h, first.ledger, d, r, n - 1);
      Step(rest.ledger, first.effects + rest.effects)
  }

  /** The first of n + 1 counted deliveries, then the other n from the ledger it leaves. */
  lemma RedeliverCountedStep(h: Handler, ledger: map<string, int>, d: Delivery, r: Reaction, n: nat)
    ensures var first := DeliverCounted(h, ledger, d, r);
      var rest := RedeliverCounted(h, first.ledger, d, r, n);
      RedeliverCounted(h, ledger, d, r, n + 1) == Step(rest.ledger, first.effects + rest.effects)
  {
  }

  /** What one requeued failing attempt emits: handle, call back, nack with requeue. */
  function RetryBlock(h: Handler, d: Delivery, r: Reaction): seq<Effect>
    requires FailingAttempt(d, r)
  {
    [Handle(r.mapped.value), Callback(r.result.res.value, ParsedId(d)), Nack(d.tag, h.retryInterval, true)]
  }

  /** What the last failing attempt emits: handle, call back, and ack unless auto-ack. */
  function RetryTail(h: Handler, d: Delivery, r: Reaction): seq<Effect>
    requires FailingAttempt(d, r)
  {
    [Handle(r.mapped.value), Callback(r.result.res.value, ParsedId(d))] + (if h.autoAck then [] else [Ack(d.tag)])
  }

  /** One counted failure below the limit: requeue and count the attempt. */
  lemma CountedFailureBelowLimit(h: Handler, ledger: map<string, int>, d: Delivery, r: Reaction)
    requires FailingAttempt(d, r) && CountOf(ledger, ParsedId(d)) < h.maxRetry
    ensures var id := ParsedId(d);
      DeliverCounted(h, ledger, d, r) == Step(ledger[id := CountOf(ledger, id) + 1], RetryBlock(h, d, r))
  {
    FailureRequeuesEvenUnderAutoAck(h, ledger, d, r);
  }

  /** One counted failure at the limit: ack and forget the id. */
  lemma CountedFailureAtLimit(h: Handler, ledger: map<string, int>, d: Delivery, r: Reaction)
    requires FailingAttempt(d, r) && CountOf(ledger, ParsedId(d)) >= h.maxRetry
    ensures DeliverCounted(h, ledger, d, r) == Step(ledger - {ParsedId(d)}, RetryTail(h, d, r))
  {
    FailureRequeuesEvenUnderAutoAck(h, ledger, d, r);
  }

  /**
   * With counting, a failing message is requeued exactly maxRetry - count times
   * and the next delivery acks it and forgets its id.
   */
  lemma {:induction false} CountedRetriesEnd(h: Handler, ledger: map<string, int>, d: Delivery, r: Reaction)
    requires FailingAttempt(d, r) && 0 <= CountOf(ledger, ParsedId(d)) <= h.maxRetry
    ensures var n := h.maxRetry - CountOf(ledger, ParsedId(d));
      var s := RedeliverCounted(h, ledger, d, r, n + 1);
      && ParsedId(d) !in s.ledger
      && s.effects == Repeat(RetryBlock(h, d, r), n) + RetryTail(h, d, r)
    decreases h.maxRetry - CountOf(ledger, ParsedId(d))
  {
    var id := ParsedId(d);
    var n := h.maxRetry - CountOf(ledger, id);
    var block, tail := RetryBlock(h, d, r), RetryTail(h, d, r);
    RedeliverCountedStep(h, ledger, d, r, n);
    if n == 0 {
      CountedFailureAtLimit(h, ledger, d, r);
      assert RedeliverCounted(h, ledger - {id}, d, r, 0) == Step(ledger - {id}, []);
      assert tail + [] == tail;
    } else {
      CountedFailureBelowLimit(h, ledger, d, r);
      var next := ledger[id := CountOf(ledger, id) + 1];
      assert CountOf(next, id) == CountOf(ledger, id) + 1;
      CountedRetriesEnd(h, next, d, r);
      var rest := RedeliverCounted(h, next, d, r, n);
      assert rest.effects == Repeat(block, n - 1) + tail;
      var s := RedeliverCounted(h, ledger, d, r, n + 1);
      assert s == Step(rest.ledger, block + rest.effects);
      calc {
        s.effects;
        block + (Repeat(block, n - 1) + tail);
        { AppendAssoc(block, Repeat(block, n - 1), tail); }
        (block + Repeat(block, n - 1)) + tail;
        { assert Repeat(block, n) == block + Repeat(block, n - 1); }
        Repeat(block, n) + tail;
      }
    }
  }

  /**
   * The envelope the producers publish carries its payload under "body", while the
   * consumer looks for "msg": every published message is acked unhandled.
   */
  lemma PublishedEnvelopeNeverHandled(h: Handler, ledger: map<string, int>, tag: int, id: string, message: Option<Value>, r: Reaction)
    requires !IsBlank(id)
    ensures Deliver(h, ledger, Delivery(tag, Parsed(EnvelopeOf(id, message).fields)), r)
      == AckStep(ledger, h.autoAck, tag, id)
  {
  }

  /** The envelope the consumer expects: the payload under "msg". */
  function ConsumableEnvelope(id: string, message: Value): Payload {
    Envelope(map["msg" := JObject(message), "id" := JScalar(id)])
  }

  /** With the payload under "msg", a mapped message reaches the handler. */
  lemma ConsumableEnvelopeHandled(h: Handler, ledger: map<string, int>, tag: int, id: string, message: Value, r: Reaction)
    requires !IsBlank(id) && r.mapped.Mapped?
    ensures var s := Deliver(h, ledger, Delivery(tag, Parsed(ConsumableEnvelope(id, message).fields)), r);
      |s.effects| > 0 && s.effects[0] == Handle(r.mapped.value)
  {
  }

  // ---------------------------------------------------------------- the helper object

  /** The RabbitMqHelper object: its retry ledger, with the broker calls it made. */
  class Helper {
    var retryCountMap: map<string, int>
    var log: seq<Effect>

    constructor()
      ensures retryCountMap == map[] && log == []
    {
      retryCountMap := map[];
      log := [];
    }

    method AckMessage(autoAck: bool, deliveryTag: int, msgId: string)
      modifies this
      ensures var s := AckStep(old(retryCountMap), autoAck, deliveryTag, msgId);
        retryCountMap == s.ledger && log == old(log) + s.effects
    {
      retryCountMap := retryCountMap - {msgId};
      if autoAck {
        return;
      }
      log := log + [Ack(deliveryTag)];
    }

    method NackMessage(deliveryTag: int, retryInterval: int)
      modifies this
      ensures retryCountMap == old(retryCountMap) && log == old(log) + [NackEffect(deliveryTag, retryInterval)]
    {
      log := log + [Nack(deliveryTag, retryInterval, true)];
    }

    method RegisterQueue(active: string, h: Handler, replies: Replies) returns (failure: Option<Failure>)
      modifies this
      ensures var o := RegisterQueueOutcome(active, h, replies);
        failure == o.failure && log == old(log) + o.effects && retryCountMap == old(retryCountMap)
    {
      var name := QueueName(active, h);
      if name.None? {
        return Some(QueueNameError);
      }
      var queueName := name.value;
      var exchange := h.exchange;
      if exchange != DefaultExchange {
        log := log + [DeclareExchange(exchange.exchanger, Lowercase(TypeName(exchange.kind)), exchange.durable, exchange.autoDelete)];
        if !replies.exchangeDeclared {
          return Some(BrokerFailed);
        }
      }
      if exchange.messageType != h.requestClass {
        return None;
      }
      log := log + [DeclareQueue(queueName, h.durable, h.exclusive, h.autoAck)];
      if !replies.queueDeclared {
        return Some(BrokerFailed);
      }
      log := log + [Bind(queueName, exchange.exchanger, "")];
      if !replies.bound {
        return Some(BrokerFailed);
      }
      return None;
    }

    method SendMessageToExchange(h: Handler, message: Option<Value>, id: string, sendConfirm: bool, replies: Replies)
      returns (failure: Option<Failure>)
      modifies this
      ensures var o := SendToExchangeOutcome(h, message, id, sendConfirm, replies);
        failure == o.failure && log == old(log) + o.effects && retryCountMap == old(retryCountMap)
    {
      var exchange := h.exchange;
      if exchange.kind == DIRECT {
        return Some(DirectRejected);
      }
      var envelope := EnvelopeOf(id, message);
      var exchanger := exchange.exchanger;
      if IsBlank(exchanger) {
        return Some(BlankExchanger);
      }
      log := log + [Persist(envelope)];
      if !replies.persisted {
        return Some(PersistThrew);
      }
      if message.None? {
        return Some(NullMessage);
      }
      if exchange.messageType != message.value.cls {
        return Some(TypeMismatch);
      }
      log := log + [Publish(exchanger, "", true, envelope)];
      if !replies.published {
        return Some(BrokerFailed);
      }
      failure := AwaitConfirms(sendConfirm, replies.confirmed);
    }

    method SendMessageToQueue(active: string, h: Handler, message: Option<Value>, id: string, sendConfirm: bool,
                              replies: Replies)
      returns (failure: Option<Failure>)
      modifies this
      ensures var o := SendToQueueOutcome(active, h, message, id, sendConfirm, replies);
        failure == o.failure && log == old(log) + o.effects && retryCountMap == old(retryCountMap)
    {
      var name := QueueName(active, h);
      if name.None? {
        return Some(QueueNameError);
      }
      var queueName := name.value;
      if IsBlank(queueName) {
        return Some(BlankQueueName);
      }
      var envelope := EnvelopeOf(id, message);
      log := log + [Persist(envelope)];
      if !replies.persisted {
        return Some(PersistThrew);
      }
      if message.None? {
        return Some(NullMessage);
      }
      if h.exchange.messageType != message.value.cls {
        return Some(TypeMismatch);
      }
      log := log + [Publish(h.exchange.exchanger, queueName, false, envelope)];
      if !replies.published {
        return Some(BrokerFailed);
      }
      failure := AwaitConfirms(sendConfirm, replies.confirmed);
    }

    /** The `compose` step after a successful basicPublish. */
    method AwaitConfirms(sendConfirm: bool, confirmed: bool) returns (failure: Option<Failure>)
      modifies this
      ensures var o := Confirming([], sendConfirm, confirmed);
        failure == o.failure && log == old(log) + o.effects && retryCountMap == old(retryCountMap)
    {
      if !sendConfirm {
        return None;
      }
      log := log + [WaitConfirms(5000)];
      if !confirmed {
        return Some(ConfirmFailed);
      }
      return None;
    }

    method RegisterConsumer(active: string, h: Handler, replies: Replies) returns (failure: Option<Failure>)
      modifies this
      ensures var o := RegisterConsumerOutcome(active, h, replies);
        failure == o.failure && log == old(log) + o.effects && retryCountMap == old(retryCountMap)
    {
      failure := RegisterQueue(active, h, replies);
      if failure.Some? {
        return;
      }
      var name := QueueName(active, h);
      log := log + [Consume(name.value, h.maxInternalQueueSize, false, h.autoAck)];
      if !replies.consumed {
        return Some(BrokerFailed);
      }
    }

    /** The consumer's handler for one delivery: the decode guards, mapTo and the user's handler. */
    method OnDelivery(h: Handler, d: Delivery, r: Reaction)
      modifies this
      ensures var s := Deliver(h, old(retryCountMap), d, r);
        retryCountMap == s.ledger && log == old(log) + s.effects
    {
      match d.body {
        case Unparseable =>
          OnFailure(h, d.tag, "", DecodeError, None, r.recall);
        case Parsed(f) =>
          if "id" !in f {
            AckMessage(h.autoAck, d.tag, "");
            return;
          }
          if f["id"].JNull? {
            OnFailure(h, d.tag, "", NullReference, None, r.recall);
            return;
          }
          var msgId := IdText(f["id"]);
          if IsBlank(msgId) {
            AckMessage(h.autoAck, d.tag, "");
            return;
          }
          if "msg" !in f {
            AckMessage(h.autoAck, d.tag, msgId);
            return;
          }
          match f["msg"] {
            case JNull =>
              AckMessage(h.autoAck, d.tag, msgId);
            case JScalar(_) =>
              OnFailure(h, d.tag, msgId, ClassCast, Some(r.castError), r.recall);
            case JObject(_) =>
              match r.mapped {
                case MapThrew(message) =>
                  OnFailure(h, d.tag, msgId, IllegalArgument, message, r.recall);
                case MapNull =>
                  AckMessage(h.autoAck, d.tag, msgId);
                case Mapped(v) =>
                  log := log + [Handle(v)];
                  OnResult(h, d.tag, msgId, r.result, r.callback, r.recall);
              }
          }
      }
    }

    /** After the user's handler: the callback, then ack, or requeue while retries remain. */
    method OnResult(h: Handler, tag: int, msgId: string, result: HandlerResult, callback: CallOutcome, recall: CallOutcome)
      modifies this
      ensures var s := HandledStep(h, old(retryCountMap), tag, msgId, result, callback, recall);
        retryCountMap == s.ledger && log == old(log) + s.effects
    {
      match result {
        case Threw(kind, message) =>
          OnFailure(h, tag, msgId, kind, message, recall);
        case Returned(res) =>
          if res.Some? && !IsBlank(res.value) {
            log := log + [Callback(res.value, msgId)];
            if callback.Raised? {
              OnFailure(h, tag, msgId, callback.kind, callback.message, recall);
              return;
            }
            if CountOf(retryCountMap, msgId) >= h.maxRetry {
              AckMessage(h.autoAck, tag, msgId);
              return;
            }
            NackMessage(tag, h.retryInterval);
            return;
          }
          log := log + [Callback("", msgId)];
          if callback.Raised? {
            OnFailure(h, tag, msgId, callback.kind, callback.message, recall);
            return;
          }
          AckMessage(h.autoAck, tag, msgId);
      }
    }

    /**
     * The catch block; `msgId` is what had been read when the exception was thrown.
     * When the callback throws here, its exception leaves the coroutine.
     */
    method OnFailure(h: Handler, tag: int, msgId: string, kind: ExceptionKind, message: Option<string>, recall: CallOutcome)
      modifies this
      ensures var s := CatchStep(h, old(retryCountMap), tag, msgId, kind, message, recall);
        retryCountMap == s.ledger && log == old(log) + s.effects
    {
      if !IsBlank(msgId) {
        log := log + [Callback(message.GetOr(""), msgId)];
        if recall.Raised? {
          return;
        }
      }
      if kind == DecodeError || kind == IllegalArgument {
        AckMessage(h.autoAck, tag, "");
        return;
      }
      if !h.autoAck {
        NackMessage(tag, h.retryInterval);
      }
    }
  }
}
