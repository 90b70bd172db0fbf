/**
 * `RabbitMqHelper` of common-rabbitmq, the older iteration: queue names from the
 * enum constant names, a Boolean handler and persistence outcome, a consumer that
 * never declares its queue and a catch block that requeues every exception.
 */
module LegacyRabbitMq {
  import opened Wrappers
  import opened Text
  import opened MqContract

  /** The constants of this module's RabbitMqExChangeEnum. */
  const Default := EnumConstant("DEFAULT", DEFAULT, "")
  const Direct := EnumConstant("DIRECT", DIRECT, "direct")
  const Topic := EnumConstant("TOPIC", TOPIC, "topic")
  const Headers := EnumConstant("HEADERS", HEADERS, "headers")
  const Fanout := EnumConstant("FANOUT", FANOUT, "fanout")

  /** The six parts of a queue name: constant names and the type's `toString`, unchanged. */
  function QueueNameParts(active: string, h: Handler): (r: seq<string>)
    ensures |r| == 6 && r[0] == active && r[1] == h.moduleName.constName && r[2] == h.queueName
    ensures r[3] == h.date && r[4] == h.exchange.constName && r[5] == TypeName(h.exchange.kind)
  {
    [active, h.moduleName.constName, h.queueName, h.date, h.exchange.constName, TypeName(h.exchange.kind)]
  }

  /** assembleQueueName; `date.toString("yyyy-MM-dd")` is taken as the date text. */
  function QueueName(active: string, h: Handler): string {
    Join(QueueNameParts(active, h), '.')
  }

  /** The name parses back into the verbatim constant names when no input holds a '.'. */
  lemma QueueNameSplits(active: string, h: Handler)
    requires '.' !in active && '.' !in h.moduleName.constName && '.' !in h.queueName
    requires '.' !in h.date && '.' !in h.exchange.constName
    ensures Split(QueueName(active, h), '.') == QueueNameParts(active, h)
  {
    var parts := QueueNameParts(active, h);
    assert '.' !in TypeName(h.exchange.kind);
    SplitJoin(parts, '.');
  }

  /** Upper-case constant names stay upper-case: nothing is lowered or underscored. */
  lemma QueueNameKeepsCase(active: string, h: Handler)
    requires '.' !in active && '.' !in h.moduleName.constName && '.' !in h.queueName
    requires '.' !in h.date && '.' !in h.exchange.constName
    ensures var parts := Split(QueueName(active, h), '.');
      |parts| == 6 && parts[4] == h.exchange.constName && parts[5] == TypeName(h.exchange.kind)
      && !NoUpper(parts[5])
  {
    QueueNameSplits(active, h);
    assert IsUpper(TypeName(h.exchange.kind)[0]);
  }

  /**
   * registerQueue: exchange declare (upper-case type) unless DEFAULT, type check, queue
   * declare, bind; the first broker call that fails ends it.
   */
  function RegisterQueueOutcome(active: string, h: Handler, replies: Replies): Outcome {
    var q := QueueName(active, h);
    var e := h.exchange;
    var declare := DeclareExchange(e.exchanger, TypeName(e.kind), e.durable, e.autoDelete);
    if e != Default && !replies.exchangeDeclared then Outcome([declare], Some(BrokerFailed))
    else
      var declared := if e == Default then [] else [declare];
      var queued := declared + [DeclareQueue(q, h.durable, h.exclusive, h.autoAck)];
      if e.messageType != h.requestClass then Outcome(declared, None)
      else if !replies.queueDeclared then Outcome(queued, Some(BrokerFailed))
      else Outcome(queued + [Bind(q, e.exchanger, "")], if replies.bound then None else Some(BrokerFailed))
  }

  /**
   * The exchange is declared unless DEFAULT (and DEFAULT is never declared), under its
   * upper-case type name; a type mismatch stops before the queue, leaving at most that
   * declaration; the call fails exactly when a broker call it makes fails, and on
   * success a matching type ends with the queue declared, then bound.
   */
  lemma RegisterQueueTopology(active: string, h: Handler, replies: Replies)
    ensures var o := RegisterQueueOutcome(active, h, replies);
      var effects := o.effects;
      var declaredOk := h.exchange == Default || replies.exchangeDeclared;
      && (h.exchange != Default ==>
            effects[0] == DeclareExchange(h.exchange.exchanger, TypeName(h.exchange.kind), h.exchange.durable, h.exchange.autoDelete)
            && !NoUpper(effects[0].kind))
      && (h.exchange == Default ==> forall e <- effects :: !e.DeclareExchange?)
      && (h.exchange.messageType != h.requestClass ==> |effects| <= 1 && forall e <- effects :: e.DeclareExchange?)
      && (o.failure.Some? <==>
            !declaredOk || (h.exchange.messageType == h.requestClass && (!replies.queueDeclared || !replies.bound)))
      && (o.failure.Some? ==> o.failure == Some(BrokerFailed))
      && (h.exchange.messageType == h.requestClass && o.failure.None? ==>
            effects[|effects| - 2] == DeclareQueue(QueueName(active, h), h.durable, h.exclusive, h.autoAck)
            && effects[|effects| - 1] == Bind(QueueName(active, h), h.exchange.exchanger, ""))
  {
    if h.exchange != Default {
      assert IsUpper(TypeName(h.exchange.kind)[0]);
    }
  }

  /** registerConsumer: only the consumer; the queue must already exist. */
  function RegisterConsumerOutcome(active: string, h: Handler, replies: Replies): Outcome {
    Outcome([Consume(QueueName(active, h), h.maxInternalQueueSize, false, h.autoAck)],
            if replies.consumed then None else Some(BrokerFailed))
  }

  /** MessageData(message) as Jackson writes it: properties "msg" and "id". */
  function MessageDataOf(id: string, message: Option<Value>): Payload {
    Envelope(map["msg" := (if message.None? then JNull else JObject(message.value)), "id" := JScalar(id)])
  }

  /**
   * sendMessageToExchange: DIRECT is refused; the MessageData envelope is only
   * persisted (a `true` persistence result is merely logged, as a failure, while a
   * throw from the persistence function ends the send); after the type check the raw
   * message is published with routing key "".
   */
  function SendToExchangeOutcome(e: Exchange, message: Value, id: string, replies: Replies): Outcome {
    if e.kind == DIRECT then Outcome([], Some(DirectRejected))
    else
      var persisted := [Persist(MessageDataOf(id, Some(message)))];
      if !replies.persisted then Outcome(persisted, Some(PersistThrew))
      else if e.messageType != message.cls then Outcome(persisted, Some(TypeMismatch))
      else Outcome(persisted + [Publish(e.exchanger, "", true, Raw(message))],
                   if replies.published then None else Some(BrokerFailed))
  }

  /**
   * What reaches the exchange is the bare message, never the envelope that was
   * persisted; it is published exactly when the exchange is not DIRECT, the
   * persistence function returns and the type matches, and the send then succeeds
   * exactly when the publish does.
   */
  lemma ExchangePublishesRawMessage(e: Exchange, message: Value, id: string, replies: Replies)
    ensures var o := SendToExchangeOutcome(e, message, id, replies);
      var publishes := e.kind != DIRECT && replies.persisted && e.messageType == message.cls;
      && (!NoPublish(o.effects) <==> publishes)
      && (publishes ==>
            o.effects == [Persist(MessageDataOf(id, Some(message))), Publish(e.exchanger, "", true, Raw(message))])
      && (o.failure.None? <==> publishes && replies.published)
      && (o.failure == Some(PersistThrew) <==> e.kind != DIRECT && !replies.persisted)
  {
    var o := SendToExchangeOutcome(e, message, id, replies);
    if e.kind != DIRECT && replies.persisted && e.messageType == message.cls {
      assert o.effects[1].Publish?;
    }
  }

  /**
   * sendMessageToQueue: no type check; the envelope is published once the persistence
   * function returns, and confirmed only when `confirm` and the publish succeeded.
   */
  function SendToQueueOutcome(active: string, h: Handler, message: Option<Value>, id: string, replies: Replies): Outcome {
    var q := QueueName(active, h);
    var envelope := MessageDataOf(id, message);
    var published := [Persist(envelope), Publish(h.exchange.exchanger, q, false, envelope)];
    if !replies.persisted then Outcome([Persist(envelope)], Some(PersistThrew))
    else if !replies.published then Outcome(published, Some(BrokerFailed))
    else if !h.confirm then Outcome(published, None)
    else Outcome(published + [WaitConfirms(5000)], if replies.confirmed then None else Some(ConfirmFailed))
  }

  /**
   * Every message, of any class and even null, is published to the queue once the
   * persistence function returns; the send fails exactly when that function throws,
   * the publish fails, or a requested confirm does not come.
   */
  lemma QueueSendAlwaysPublishes(active: string, h: Handler, message: Option<Value>, id: string, replies: Replies)
    ensures var o := SendToQueueOutcome(active, h, message, id, replies);
      && (replies.persisted ==>
            o.effects[1] == Publish(h.exchange.exchanger, QueueName(active, h), false, MessageDataOf(id, message)))
      && (!replies.persisted ==> o == Outcome([Persist(MessageDataOf(id, message))], Some(PersistThrew)))
      && (o.failure.Some? <==> !replies.persisted || !replies.published || (h.confirm && !replies.confirmed))
      && (|o.effects| == 3 <==> replies.persisted && replies.published && h.confirm)
  {
  }

  /** The consumer's `Json.decodeValue(body, MessageData::class.java)`. */
  datatype Decoding = DecodeFailed | Decoded(id: Option<string>, msg: Option<Value>)

  /** What the Boolean handler does. */
  datatype HandlerResult = Returned(ok: bool) | Threw

  datatype Delivery = Delivery(tag: int, decoding: Decoding)

  /** The catch block: requeue unless the consumer auto-acks. */
  function CatchStep(h: Handler, ledger: map<string, int>, tag: int): Step {
    Step(ledger, if h.autoAck then [] else [Nack(tag, h.retryInterval, true)])
  }

  /**
   * ackMessage. A null id makes `retryCountMap.remove` throw before the ack, and
   * the catch block takes over.
   */
  function AckStep(h: Handler, ledger: map<string, int>, tag: int, msgId: Option<string>): Step {
    match msgId
    case None => CatchStep(h, ledger, tag)
    case Some(id) => Step(ledger - {id}, if h.autoAck then [] else [Ack(tag)])
  }

  /** The consumer's handler for one delivery. */
  function Deliver(h: Handler, ledger: map<string, int>, d: Delivery, result: HandlerResult): (s: Step)
    ensures s.ledger.Keys <= ledger.Keys
    ensures forall k :: k in s.ledger ==> s.ledger[k] == ledger[k]
  {
    match d.decoding
    case DecodeFailed => CatchStep(h, ledger, d.tag)
    case Decoded(msgId, msg) =>
      if msg.None? || msg.value.cls != h.requestClass then AckStep(h, ledger, d.tag, msgId)
      else
        var after :=
          match result
          case Threw => CatchStep(h, ledger, d.tag)
          case Returned(ok) =>
            if ok then AckStep(h, ledger, d.tag, msgId)
            else if msgId.None? then CatchStep(h, ledger, d.tag)
            else if CountOf(ledger, msgId.value) >= h.maxRetry then AckStep(h, ledger, d.tag, msgId)
            else Step(ledger, [Nack(d.tag, h.retryInterval, true)]);
        Step(after.ledger, [Handle(msg.value)] + after.effects)
  }

  /**
   * Every exception, an undecodable body included, is requeued when the consumer
   * does not auto-ack and dropped silently when it does; nothing is ever acked for it.
   */
  lemma ExceptionsRequeue(h: Handler, ledger: map<string, int>, d: Delivery, result: HandlerResult)
    requires d.decoding.DecodeFailed?
      || (d.decoding.msg.Some? && d.decoding.msg.value.cls == h.requestClass && result.Threw?)
    ensures var s := Deliver(h, ledger, d, result);
      && s.ledger == ledger && NoAck(s.effects)
      && (NoNack(s.effects) <==> h.autoAck)
  {
    var s := Deliver(h, ledger, d, result);
    if !h.autoAck {
      assert s.effects[|s.effects| - 1].Nack?;
    }
  }

  /** A null or mistyped message is acked, with its id forgotten, before the handler could run. */
  lemma UnusableMessageAcked(h: Handler, ledger: map<string, int>, d: Delivery, result: HandlerResult)
    requires d.decoding.Decoded? && d.decoding.id.Some?
    requires d.decoding.msg.None? || d.decoding.msg.value.cls != h.requestClass
    ensures Deliver(h, ledger, d, result)
      == Step(ledger - {d.decoding.id.value}, if h.autoAck then [] else [Ack(d.tag)])
  {
  }

  /** A false result is requeued below maxRetry and acked at it; a true result is acked. */
  lemma ResultRules(h: Handler, ledger: map<string, int>, d: Delivery, ok: bool)
    requires d.decoding.Decoded? && d.decoding.id.Some?
    requires d.decoding.msg.Some? && d.decoding.msg.value.cls == h.requestClass
    ensures var id := d.decoding.id.value;
      var s := Deliver(h, ledger, d, Returned(ok));
      var acked := Step(ledger - {id}, [Handle(d.decoding.msg.value)] + (if h.autoAck then [] else [Ack(d.tag)]));
      && (ok ==> s == acked)
      && (!ok && CountOf(ledger, id) >= h.maxRetry ==> s == acked)
      && (!ok && CountOf(ledger, id) < h.maxRetry ==>
            s == Step(ledger, [Handle(d.decoding.msg.value), Nack(d.tag, h.retryInterval, true)]))
  {
  }

  /** With a null id the message is never acked: every path ends in the catch block. */
  lemma NullIdNeverAcked(h: Handler, ledger: map<string, int>, d: Delivery, result: HandlerResult)
    requires d.decoding.Decoded? && d.decoding.id.None?
    ensures var s := Deliver(h, ledger, d, result);
      s.ledger == ledger && NoAck(s.effects)
  {
    var s := Deliver(h, ledger, d, result);
    forall i | 0 <= i < |s.effects|
      ensures !s.effects[i].Ack?
    {
    }
  }

  /** The common-rabbitmq RabbitMqHelper object. */
  class Helper {
    var retryCountMap: map<string, int>
    var log: seq<Effect>

    constructor()
      ensures retryCountMap == map[] && log == []
    {
      retryCountMap := map[];
      log := [];
    }

    method RegisterQueue(active: string, h: Handler, replies: Replies) returns (failure: Option<Failure>)
      modifies this
      ensures var o := RegisterQueueOutcome(active, h, replies);
        failure == o.failure && log == old(log) + o.effects && retryCountMap == old(retryCountMap)
    {
      var queueName := QueueName(active, h);
      var exchange := h.exchange;
      if exchange != Default {
        log := log + [DeclareExchange(exchange.exchanger, TypeName(exchange.kind), exchange.durable, exchange.autoDelete)];
        if !replies.exchangeDeclared {
          return Some(BrokerFailed);
        }
      }
      if exchange.messageType != h.requestClass {
        return None;
      }
      log := log + [DeclareQueue(queueName, h.durable, h.exclusive, h.autoAck)];
      if !replies.queueDeclared {
        return Some(BrokerFailed);
      }
      log := log + [Bind(queueName, exchange.exchanger, "")];
      if !replies.bound {
        return Some(BrokerFailed);
      }
      return None;
    }

    method SendMessageToExchange(e: Exchange, message: Value, id: string, replies: Replies) returns (failure: Option<Failure>)
      modifies this
      ensures var o := SendToExchangeOutcome(e, message, id, replies);
        failure == o.failure && log == old(log) + o.effects && retryCountMap == old(retryCountMap)
    {
      if e.kind == DIRECT {
        return Some(DirectRejected);
      }
      var messageData := MessageDataOf(id, Some(message));
      log := log + [Persist(messageData)];
      if !replies.persisted {
        return Some(PersistThrew);
      }
      if e.messageType != message.cls {
        return Some(TypeMismatch);
      }
      log := log + [Publish(e.exchanger, "", true, Raw(message))];
      if !replies.published {
        return Some(BrokerFailed);
      }
      return None;
    }

    method SendMessageToQueue(active: string, h: Handler, message: Option<Value>, id: string, replies: Replies)
      returns (failure: Option<Failure>)
      modifies this
      ensures var o := SendToQueueOutcome(active, h, message, id, replies);
        failure == o.failure && log == old(log) + o.effects && retryCountMap == old(retryCountMap)
    {
      var queueName := QueueName(active, h);
      var messageData := MessageDataOf(id, message);
      log := log + [Persist(messageData)];
      if !replies.persisted {
        return Some(PersistThrew);
      }
      log := log + [Publish(h.exchange.exchanger, queueName, false, messageData)];
      if !replies.published {
        return Some(BrokerFailed);
      }
      if h.confirm {
        log := log + [WaitConfirms(5000)];
        if !replies.confirmed {
          return Some(ConfirmFailed);
        }
      }
      return None;
    }

    method RegisterConsumer(active: string, h: Handler, replies: Replies) returns (failure: Option<Failure>)
      modifies this
      ensures var o := RegisterConsumerOutcome(active, h, replies);
        failure == o.failure && log == old(log) + o.effects && retryCountMap == old(retryCountMap)
    {
      var queueName := QueueName(active, h);
      log := log + [Consume(queueName, h.maxInternalQueueSize, false, h.autoAck)];
      if !replies.consumed {
        return Some(BrokerFailed);
      }
      return None;
    }

    /** ackMessage; returns false where `remove(null)` throws. */
    method AckMessage(autoAck: bool, msgId: Option<string>, deliveryTag: int) returns (ok: bool)
      modifies this
      ensures ok <==> msgId.Some?
      ensures !ok ==> retryCountMap == old(retryCountMap) && log == old(log)
      ensures ok ==>
        retryCountMap == old(retryCountMap) - {msgId.value} && log == old(log) + (if autoAck then [] else [Ack(deliveryTag)])
    {
      if msgId.None? {
        return false;
      }
      retryCountMap := retryCountMap - {msgId.value};
      if autoAck {
        return true;
      }
      log := log + [Ack(deliveryTag)];
      return true;
    }

    /** The consumer's handler for one delivery; `failed` marks the way into the catch block. */
    method OnDelivery(h: Handler, d: Delivery, result: HandlerResult)
      modifies this
      ensures var s := Deliver(h, old(retryCountMap), d, result);
        retryCountMap == s.ledger && log == old(log) + s.effects
    {
      var failed := false;
      match d.decoding {
        case DecodeFailed =>
          failed := true;
        case Decoded(msgId, msg) =>
          if msg.None? || msg.value.cls != h.requestClass {
            var ok := AckMessage(h.autoAck, msgId, d.tag);
            failed := !ok;
          } else {
            log := log + [Handle(msg.value)];
            match result {
              case Threw =>
                failed := true;
              case Returned(res) =>
                if !res {
                  if msgId.None? {
                    failed := true;
                  } else if CountOf(retryCountMap, msgId.value) >= h.maxRetry {
                    var ok := AckMessage(h.autoAck, msgId, d.tag);
                    failed := !ok;
                  } else {
                    log := log + [Nack(d.tag, h.retryInterval, true)];
                  }
                } else {
                  var ok := AckMessage(h.autoAck, msgId, d.tag);
                  failed := !ok;
                }
            }
          }
      }
      // catch (e: Throwable)
      if failed && !h.autoAck {
        log := log + [Nack(d.tag, h.retryInterval, true)];
      }
    }
  }
}
