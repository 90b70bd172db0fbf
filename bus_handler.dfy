/**
 * BusHandler of the event-bus module: the companion registry that refuses a second
 * service on the same address, the consumer that replies with the encoded response or
 * fails the message with 500, and the outcome rules of `call`. JSON encoding and
 * decoding are inputs (an encoding that may fail, a decoder per response type); the
 * event bus delivers a request to the consumer registered on its address.
 */
module BusHandler {
  import opened Wrappers
  import opened Text

  /** HttpStatus.HTTP_INTERNAL_ERROR. */
  const InternalError := 500

  /**
   * The registry as a value: address ↦ address for every registered service. Registering
   * fails when the address is already a key, and otherwise adds exactly that entry.
   */
  function RegisterOutcome(m: map<string, string>, address: string): (r: Result<map<string, string>, string>)
    ensures r.Err? <==> address in m
    ensures r.Err? ==> r.error == address
    ensures r.Ok? ==> r.value.Keys == m.Keys + {address} && r.value[address] == address
    ensures r.Ok? ==> forall k :: k in m ==> r.value[k] == m[k]
  {
    if address in m then Err(address) else Ok(m[address := address])
  }

  /**
   * A run of registrations in one process, each made whether or not an earlier one threw:
   * the final registry and, per registration, whether it threw.
   */
  function RegisterAll(m: map<string, string>, addresses: seq<string>): (r: (map<string, string>, seq<bool>))
    ensures |r.1| == |addresses|
    decreases |addresses|
  {
    if |addresses| == 0 then (m, [])
    else
      var n := |addresses| - 1;
      var (before, threw) := RegisterAll(m, addresses[..n]);
      match RegisterOutcome(before, addresses[n])
      case Ok(after) => (after, threw + [false])
      case Err(_) => (before, threw + [true])
  }

  /**
   * Entries are never removed: registration k throws iff its address was registered
   * before the run or earlier in it, and afterwards every address of the run is a key.
   */
  lemma RegisterAllOutcome(m: map<string, string>, addresses: seq<string>)
    ensures forall x :: x in RegisterAll(m, addresses).0 <==> x in m || x in addresses
    ensures forall k :: 0 <= k < |addresses| ==>
      (RegisterAll(m, addresses).1[k] <==> addresses[k] in m || addresses[k] in addresses[..k])
  {
    forall x
      ensures x in RegisterAll(m, addresses).0 <==> x in m || x in addresses
    {
      RegisterAllKeys(m, addresses, x);
    }
    forall k | 0 <= k < |addresses|
      ensures RegisterAll(m, addresses).1[k] <==> addresses[k] in m || addresses[k] in addresses[..k]
    {
      RegisterAllThrows(m, addresses, k);
    }
  }

  /** The last registration of a run, after the others. */
  lemma RegisterAllStep(m: map<string, string>, addresses: seq<string>)
    requires |addresses| > 0
    ensures var n := |addresses| - 1;
      var (before, threw) := RegisterAll(m, addresses[..n]);
      var a := addresses[n];
      RegisterAll(m, addresses) == if a in before then (before, threw + [true]) else (before[a := a], threw + [false])
  {
  }

  lemma {:induction false} RegisterAllKeys(m: map<string, string>, addresses: seq<string>, x: string)
    ensures x in RegisterAll(m, addresses).0 <==> x in m || x in addresses
    decreases |addresses|
  {
    if |addresses| > 0 {
      var n := |addresses| - 1;
      var prefix, a := addresses[..n], addresses[n];
      RegisterAllKeys(m, prefix, x);
      RegisterAllStep(m, addresses);
      assert addresses == prefix + [a];
      assert x in addresses <==> x in prefix || x == a;
    }
  }

  lemma {:induction false} RegisterAllThrows(m: map<string, string>, addresses: seq<string>, k: int)
    requires 0 <= k < |addresses|
    ensures RegisterAll(m, addresses).1[k] <==> addresses[k] in m || addresses[k] in addresses[..k]
    decreases |addresses|
  {
    var n := |addresses| - 1;
    var prefix, a := addresses[..n], addresses[n];
    RegisterAllStep(m, addresses);
    var threw := RegisterAll(m, prefix).1;
    if k < n {
      RegisterAllThrows(m, prefix, k);
      assert RegisterAll(m, addresses).1[k] == threw[k];
      assert prefix[k] == addresses[k] && prefix[..k] == addresses[..k];
    } else {
      RegisterAllKeys(m, prefix, a);
      assert addresses[..k] == prefix;
    }
  }

  /** The same address registered twice in one process: the second registration throws. */
  lemma SecondRegistrationThrows(m: map<string, string>, addresses: seq<string>, i: int, j: int)
    requires 0 <= i < j < |addresses| && addresses[i] == addresses[j]
    ensures RegisterAll(m, addresses).1[j]
  {
    RegisterAllOutcome(m, addresses);
    assert addresses[..j][i] == addresses[i];
  }

  /** What the consumer does with a request: the handler's encoded response, or its exception message. */
  datatype Reply = Replied(body: string) | Failed(code: int, message: Option<string>)

  /**
   * The consumer: a handler that completes (and whose response encodes) gives a reply
   * with that body; any throwable fails the message with 500 and the exception's message.
   */
  function Consume(handled: Result<string, Option<string>>): (r: Reply)
    ensures r.Replied? <==> handled.Ok?
    ensures r.Replied? ==> r.body == handled.value
    ensures r.Failed? ==> r.code == InternalError && r.message == handled.error
  {
    match handled
    case Ok(body) => Replied(body)
    case Err(message) => Failed(InternalError, message)
  }

  /** What the event bus hands back to `call`. */
  datatype Transport = Answered(body: string) | Refused(code: int, message: Option<string>) | NoHandlers

  /**
   * A registered service as its consumer sees it. The delivered body is the String that
   * `call` sent, and `handleRequest` receives it as it is. `stringPasses` says whether a
   * String passes the parameter cast of the service's handleRequest: it does when the
   * service keeps the interface's default handleRequest (no cast at all) or overrides it
   * with a Request type a String can be cast to (String, Any, CharSequence,
   * Comparable<String>, ...). When the service overrides it with a Request type a String
   * cannot be cast to, that cast throws, with message `castMessage`. `handle` is what
   * handleRequest does with the text it gets: the encoded response, or the message of
   * what it (or the encoding of its response) threw.
   */
  datatype Service = Service(stringPasses: bool, castMessage: Option<string>,
                             handle: string -> Result<string, Option<string>>)

  /** What handleRequest makes of a delivered body, as the consumer is written. */
  function Received(service: Service, body: string): (r: Result<string, Option<string>>)
    ensures service.stringPasses ==> r == service.handle(body)
    ensures !service.stringPasses ==> r == Err(service.castMessage)
  {
    if service.stringPasses then service.handle(body) else Err(service.castMessage)
  }

  /** The consumer's reply sent back over the bus. */
  function Answer(reply: Reply): (r: Transport)
    ensures r.Answered? <==> reply.Replied?
    ensures r.Answered? ==> r.body == reply.body
    ensures r.Refused? ==> r.code == reply.code && r.message == reply.message
    ensures !r.NoHandlers?
  {
    match reply
    case Replied(body) => Answered(body)
    case Failed(code, message) => Refused(code, message)
  }

  /**
   * A request on an address, as the consumer is written: nobody answers an unregistered
   * address; the consumer registered there hands the body, still JSON text, to
   * handleRequest, and answers with its encoded response or fails with 500.
   */
  function Deliver(registry: map<string, string>, address: string, body: string, service: Service): (r: Transport)
    ensures address !in registry <==> r.NoHandlers?
    ensures address in registry ==> (r.Answered? <==> service.stringPasses && service.handle(body).Ok?)
    ensures address in registry && r.Answered? ==> r.body == service.handle(body).value
    ensures address in registry && !service.stringPasses ==> r == Refused(InternalError, service.castMessage)
  {
    if address !in registry then NoHandlers else Answer(Consume(Received(service, body)))
  }

  /**
   * The consumer as evidently intended: it decodes the body into the service's Request
   * type first (a failed decode fails the message with 500 and the decoder's message),
   * then hands the decoded request to the handler.
   */
  function DeliverDecoded<Q>(registry: map<string, string>, address: string, body: string,
                             decodeRequest: string -> Option<Q>, decodeMessage: Option<string>,
                             handle: Q -> Result<string, Option<string>>): (r: Transport)
    ensures address !in registry <==> r.NoHandlers?
    ensures address in registry && decodeRequest(body).None? ==> r == Refused(InternalError, decodeMessage)
    ensures address in registry && decodeRequest(body).Some? ==>
      (r.Answered? <==> handle(decodeRequest(body).value).Ok?)
    ensures address in registry && r.Answered? ==> r.body == handle(decodeRequest(body).value).value
  {
    if address !in registry then NoHandlers
    else
      match decodeRequest(body)
      case None => Refused(InternalError, decodeMessage)
      case Some(request) => Answer(Consume(handle(request)))
  }

  /** Why a call's future fails. */
  datatype CallError = EncodeFailed | TransportFailed(cause: Transport) | DecodeFailed(body: string)

  /** The request call sends (address and encoded payload), if it sends one, and how its future ends. */
  datatype CallResult<R> = CallResult(sent: Option<(string, string)>, outcome: Result<R, CallError>)

  /**
   * call: an encoding failure fails the future without sending; otherwise the payload
   * goes to the service's address and the future completes with the decoded reply, or
   * fails with the transport's cause or the decode error.
   */
  function Call<R>(address: string, encoded: Option<string>, transport: Transport, decode: string -> Option<R>)
    : (r: CallResult<R>)
    ensures r.sent.None? <==> encoded.None?
    ensures r.sent.Some? ==> r.sent.value == (address, encoded.value)
    ensures encoded.None? ==> r.outcome == Err(EncodeFailed)
    ensures r.outcome.Ok? <==> encoded.Some? && transport.Answered? && decode(transport.body).Some?
    ensures r.outcome.Ok? ==> Some(r.outcome.value) == decode(transport.body)
    ensures encoded.Some? && !transport.Answered? ==> r.outcome == Err(TransportFailed(transport))
  {
    if encoded.None? then CallResult(None, Err(EncodeFailed))
    else
      var sent := Some((address, encoded.value));
      match transport
      case Answered(body) =>
        (match decode(body)
         case Some(response) => CallResult(sent, Ok(response))
         case None => CallResult(sent, Err(DecodeFailed(body))))
      case _ => CallResult(sent, Err(TransportFailed(transport)))
  }

  /**
   * With a consumer that decodes the request: a request that round-trips through its
   * encoding reaches the handler as itself, and a response that round-trips completes
   * the caller's future with that response.
   */
  lemma CallRoundTrip<Q, R>(registry: map<string, string>, address: string, request: Q,
                            encodeRequest: Q -> string, decodeRequest: string -> Option<Q>,
                            decodeMessage: Option<string>, handle: Q -> Result<string, Option<string>>,
                            response: R, encodeResponse: R -> string, decodeResponse: string -> Option<R>)
    requires address in registry
    requires decodeRequest(encodeRequest(request)) == Some(request)
    requires handle(request) == Ok(encodeResponse(response))
    requires decodeResponse(encodeResponse(response)) == Some(response)
    ensures var body := encodeRequest(request);
      Call(address, Some(body), DeliverDecoded(registry, address, body, decodeRequest, decodeMessage, handle),
           decodeResponse).outcome == Ok(response)
  {
  }

  /**
   * A handler that throws, or a Request type the body cannot be cast to, reaches the
   * caller as a failure carrying 500 and the exception's message.
   */
  lemma HandlerFailureReachesCaller<R>(registry: map<string, string>, address: string, body: string,
                                       service: Service, decode: string -> Option<R>)
    requires address in registry
    requires service.stringPasses ==> service.handle(body).Err?
    ensures Call(address, Some(body), Deliver(registry, address, body, service), decode).outcome
      == Err(TransportFailed(Refused(InternalError,
           if service.stringPasses then service.handle(body).error else service.castMessage)))
  {
  }

  /** Json.encode of a String without quotes or backslashes: the text in double quotes. */
  function EncodeString(s: string): (r: string)
    ensures |r| == |s| + 2 && r[0] == '"' && r[|r| - 1] == '"'
    ensures r[1..|r| - 1] == s
  {
    "\"" + s + "\""
  }

  /** Json.decodeValue of a Boolean. */
  function DecodeBool(s: string): (r: Option<bool>)
    ensures r.Some? <==> s == "true" || s == "false"
    ensures r.Some? ==> (r.value <==> s == "true")
  {
    if s == "true" then Some(true) else if s == "false" then Some(false) else None
  }

  /** A String service that answers whether its request is "ping". */
  function IsPing(request: string): (r: Result<string, Option<string>>)
    ensures r.Ok? && (r.value == "true" <==> request == "ping")
  {
    Ok(if request == "ping" then "true" else "false")
  }

  /**
   * As written, a String service receives the JSON text of its request, quotes included:
   * calling the "is it ping?" service with "ping" completes with false.
   */
  lemma PingArrivesQuoted(registry: map<string, string>, address: string)
    requires address in registry
    ensures var body := EncodeString("ping");
      Call(address, Some(body), Deliver(registry, address, body, Service(true, None, IsPing)), DecodeBool).outcome
        == Ok(false)
  {
    var body := EncodeString("ping");
    assert body != "ping" by { assert |body| == 6; }
  }

  /**
   * As written, a service that overrides handleRequest with a Request type a String cannot
   * be cast to refuses every call with 500, whatever the request and whatever its handler
   * would do.
   */
  lemma TypedRequestAlwaysRefused<R>(registry: map<string, string>, address: string, body: string,
                                     service: Service, decode: string -> Option<R>)
    requires address in registry && !service.stringPasses
    ensures Call(address, Some(body), Deliver(registry, address, body, service), decode).outcome
      == Err(TransportFailed(Refused(InternalError, service.castMessage)))
  {
  }

  /**
   * The interface's default handleRequest: it completes with no response, which the
   * consumer encodes as the JSON text null.
   */
  function DefaultHandle(request: string): (r: Result<string, Option<string>>)
    ensures r.Ok? && r.value == "null"
  {
    Ok("null")
  }

  /**
   * A service that keeps the default handleRequest does no cast, so it is never refused:
   * whatever the request, the caller gets "null" back.
   */
  lemma DefaultHandlerAnswersNull(registry: map<string, string>, address: string, body: string)
    requires address in registry
    ensures Deliver(registry, address, body, Service(true, None, DefaultHandle)) == Answered("null")
  {
  }

  /** With the decoding consumer, the same call completes with true. */
  lemma PingDecoded(registry: map<string, string>, address: string, decodeMessage: Option<string>)
    requires address in registry
    ensures var body := EncodeString("ping");
      var decodeRequest := (s: string) => if |s| >= 2 && s[0] == '"' && s[|s| - 1] == '"' then Some(s[1..|s| - 1]) else None;
      Call(address, Some(body), DeliverDecoded(registry, address, body, decodeRequest, decodeMessage, IsPing),
           DecodeBool).outcome == Ok(true)
  {
    var body := EncodeString("ping");
    assert body[1..|body| - 1] == "ping";
  }

  /** The companion object's addressMap, and the addresses that have a consumer, in registration order. */
  class Registry {
    var addressMap: map<string, string>
    var consumers: seq<string>

    /** Each key maps to itself, and exactly the keys have one consumer each. */
    ghost predicate Valid()
      reads this
    {
      && (forall k :: k in addressMap ==> addressMap[k] == k)
      && Distinct(consumers)
      && addressMap.Keys == set a | a in consumers
    }

    constructor()
      ensures Valid() && addressMap == map[] && consumers == []
    {
      addressMap, consumers := map[], [];
    }

    /**
     * register: a duplicate address throws before anything changes; otherwise the entry
     * is added and a consumer is registered on the address.
     */
    method Register(address: string) returns (r: Result<(), string>)
      requires Valid()
      modifies this
      ensures Valid()
      ensures r.Err? <==> address in old(addressMap)
      ensures r.Err? ==> addressMap == old(addressMap) && consumers == old(consumers)
      ensures r.Ok? ==> Ok(addressMap) == RegisterOutcome(old(addressMap), address)
      ensures r.Ok? ==> consumers == old(consumers) + [address]
    {
      if address in addressMap {
        return Err(address);
      }
      DistinctAppend(consumers, address);
      addressMap := addressMap[address := address];
      consumers := consumers + [address];
      r := Ok(());
    }
  }
}
