/**
  Model of http_gin.go: the tables of HttpServerImpl, Register, which checks a
  handler's signature, installs its pools and publishes a new callbacks map,
  and DispatchMsg, which takes one request through its checks, borrows pooled
  request and response instances, decodes, validates, calls the handler and
  returns both instances to their pools.
 */
module HttpGin {
  import opened Values
  import Plugin
  import opened Shape
  import opened Strconv
  import opened Pools

  /** A registered handler: its reflect type and what calling it does. */
  datatype Callback = Callback(sig: TypeDesc, call: Plugin.Handler)

  /** The gin request as DispatchMsg reads it: URL query parameters and POST form fields. */
  datatype GinRequest = GinRequest(query: map<string, string>, postForm: map<string, string>)

  /** c.Query(key): "" when the key is absent. */
  function Query(c: GinRequest, key: string): string
  {
    Field(c.query, key)
  }

  /** c.PostForm(key): "" when the key is absent. */
  function PostForm(c: GinRequest, key: string): string
  {
    Field(c.postForm, key)
  }

  /** A JSON body: the error envelope {errorCode, errorMessage}, or the handler's response itself. */
  datatype Body = ErrorBody(errorCode: int, errorMessage: string) | ResponseBody(response: Value)

  /** What DispatchMsg leaves in the gin response: c.Abort() with no body, or a JSON body with status 200. */
  datatype Outcome = Aborted | Json(body: Body)

  /**
    jsoniter.Unmarshal into the pooled request: the request afterwards, and
    whether decoding failed (a failed decode may already have set fields).
   */
  datatype Decoded = Decoded(request: Value) | BadJson(request: Value)

  type Decoder = (string, Value) -> Decoded

  /** validator.Struct: no error, an InvalidValidationError, or ValidationErrors for the failing fields. */
  datatype Validation = Passed | InvalidValidationError | ValidationErrors(fields: seq<string>)

  type Validator = Value -> Validation

  /**
    The checks DispatchMsg makes before it consults any table: the query
    guard, the length and decimal parse of msg_id, and a non-empty msg.
    Some((msgId, msg)) when the request gets past all of them.
   */
  function Admit(c: GinRequest): Option<(uint64, string)>
  {
    if Query(c, "m") != "snake" || Query(c, "a") != "snake_require" then None
    else if |PostForm(c, "msg_id")| > 10 then None
    else
      match ParseUint(PostForm(c, "msg_id"))
      case None => None
      case Some(msgId) =>
        if |PostForm(c, "msg")| == 0 then None else Some((msgId, PostForm(c, "msg")))
  }

  /**
    A request gets past the checks exactly when m is "snake", a is
    "snake_require", msg_id is 1 to 10 decimal digits and msg is not empty;
    the id is then the digits' value.
   */
  lemma AdmitExactly(c: GinRequest)
    ensures Admit(c).Some? <==>
      && Query(c, "m") == "snake"
      && Query(c, "a") == "snake_require"
      && 1 <= |PostForm(c, "msg_id")| <= 10
      && AllDigits(PostForm(c, "msg_id"))
      && PostForm(c, "msg") != []
    ensures Admit(c).Some? ==>
      Admit(c).value == (DecimalValue(PostForm(c, "msg_id")), PostForm(c, "msg"))
  {
    var idText := PostForm(c, "msg_id");
    ParseUintExactly(idText);
    if 1 <= |idText| <= 10 && AllDigits(idText) {
      ShortDecimalParses(idText);
    }
  }

  /**
    The bytes handed to the decoder: the text of msg, except when the runtime
    version is exactly "go1.20", where the byte slice is never assigned and
    stays nil.
   */
  function DecodeInput(goVersion: string, msg: string): string
  {
    if goVersion != "go1.20" then msg else []
  }

  /** How the handler's returned error, or nil, becomes the JSON body. */
  function Answer(err: Option<Plugin.Error>, response: Value): Outcome
  {
    match err
    case None => Json(ResponseBody(response))
    case Some(StatusError(code, message)) => Json(ErrorBody(code, message))
    case Some(PlainError(message)) => Json(ErrorBody(-1, message))
  }

  /** The outcome of a dispatch once instances are held, and the request and response instances as left. */
  datatype Finish = Finish(outcome: Outcome, request: Value, response: Value)

  /**
    DispatchMsg from the decode on: decode into the pooled request, validate
    it, look the callback up in the published map, call it with the request
    and the pooled response, and turn its result into the outcome.
   */
  function Respond(callbacks: map<uint64, Callback>, msgId: uint64, payload: string, ctx: Plugin.Context,
                   request: Value, response: Value, decode: Decoder, validate: Validator): Finish
  {
    match decode(payload, request)
    case BadJson(partial) => Finish(Json(ErrorBody(-1, "bad json msg")), partial, response)
    case Decoded(decoded) =>
      match validate(decoded)
      case InvalidValidationError => Finish(Json(ErrorBody(-12, "invalid request")), decoded, response)
      case ValidationErrors(_) => Finish(Json(ErrorBody(-13, "invalid json args")), decoded, response)
      case Passed =>
        if msgId !in callbacks then Finish(Aborted, decoded, response)
        else
          var reply := callbacks[msgId].call(ctx, Plugin.State(decoded, response, []));
          Finish(Answer(reply.err, reply.state.response), reply.state.request, reply.state.response)
  }

  /**
    A payload that does not decode gives {-1, "bad json msg"}: whatever the
    callbacks are, the handler is not called and the response is untouched.
   */
  lemma DecodeFailureSkipsHandler(callbacks: map<uint64, Callback>, others: map<uint64, Callback>, msgId: uint64,
                                  payload: string, ctx: Plugin.Context, request: Value, response: Value,
                                  decode: Decoder, validate: Validator)
    requires decode(payload, request).BadJson?
    ensures var f := Respond(callbacks, msgId, payload, ctx, request, response, decode, validate);
      && f == Respond(others, msgId, payload, ctx, request, response, decode, validate)
      && f.outcome == Json(ErrorBody(-1, "bad json msg"))
      && f.response == response
  {
  }

  /**
    A decoded request the validator rejects gives {-12, "invalid request"}
    for an InvalidValidationError and {-13, "invalid json args"} for field
    errors; the handler is not called and the response is untouched.
   */
  lemma ValidationFailureSkipsHandler(callbacks: map<uint64, Callback>, others: map<uint64, Callback>, msgId: uint64,
                                      payload: string, ctx: Plugin.Context, request: Value, response: Value,
                                      decode: Decoder, validate: Validator)
    requires decode(payload, request).Decoded?
    requires !validate(decode(payload, request).request).Passed?
    ensures var f := Respond(callbacks, msgId, payload, ctx, request, response, decode, validate);
      && f == Respond(others, msgId, payload, ctx, request, response, decode, validate)
      && f.outcome == Json(if validate(decode(payload, request).request).InvalidValidationError?
                           then ErrorBody(-12, "invalid request")
                           else ErrorBody(-13, "invalid json args"))
      && f.response == response
  {
  }

  /** A missing callback aborts, but only once decoding and validation have both succeeded. */
  lemma MissingCallbackAbortsLate(callbacks: map<uint64, Callback>, msgId: uint64, payload: string, ctx: Plugin.Context,
                                  request: Value, response: Value, decode: Decoder, validate: Validator)
    requires msgId !in callbacks
    ensures Respond(callbacks, msgId, payload, ctx, request, response, decode, validate).outcome == Aborted
        <==> decode(payload, request).Decoded? && validate(decode(payload, request).request).Passed?
  {
  }

  /**
    Once the request decodes and validates, the registered handler is called
    with it and the pooled response; a status error answers with its own code
    and message, any other error with -1 and its text, and nil with the
    response the handler left.
   */
  lemma HandlerResultMapping(callbacks: map<uint64, Callback>, msgId: uint64, payload: string, ctx: Plugin.Context,
                             request: Value, response: Value, decode: Decoder, validate: Validator)
    requires decode(payload, request).Decoded?
    requires validate(decode(payload, request).request).Passed?
    requires msgId in callbacks
    ensures var reply := callbacks[msgId].call(ctx, Plugin.State(decode(payload, request).request, response, []));
      var f := Respond(callbacks, msgId, payload, ctx, request, response, decode, validate);
      && f.request == reply.state.request
      && f.response == reply.state.response
      && f.outcome.Json?
      && (reply.err.None? <==> f.outcome.body.ResponseBody?)
      && (reply.err.None? ==> f.outcome.body.response == reply.state.response)
      && (reply.err.Some? ==> f.outcome.body.errorMessage == reply.err.value.message)
      && (reply.err.Some? && reply.err.value.StatusError? ==> f.outcome.body.errorCode == reply.err.value.code)
      && (reply.err.Some? && reply.err.value.PlainError? ==> f.outcome.body.errorCode == -1)
  {
  }

  /** A handler that fails with status code 42 and "quota exceeded" gets exactly that envelope, not the default -1. */
  lemma CodedErrorScenario(msgId: uint64, payload: string, ctx: Plugin.Context, request: Value, response: Value,
                           decode: Decoder, validate: Validator, sig: TypeDesc)
    requires decode(payload, request).Decoded?
    requires validate(decode(payload, request).request).Passed?
    ensures var quota := (c: Plugin.Context, s: Plugin.State) => Plugin.Reply(Some(Plugin.StatusError(42, "quota exceeded")), s);
      Respond(map[msgId := Callback(sig, quota)], msgId, payload, ctx, request, response, decode, validate).outcome
        == Json(ErrorBody(42, "quota exceeded"))
  {
  }

  /**
    On runtime "go1.20" the decoder is handed no bytes at all, so with a
    decoder that rejects empty input every message, well formed or not, is
    answered with {-1, "bad json msg"}.
   */
  lemma Go120DecodesNothing(callbacks: map<uint64, Callback>, msgId: uint64, msg: string, ctx: Plugin.Context,
                            request: Value, response: Value, decode: Decoder, validate: Validator)
    requires decode([], request).BadJson?
    ensures Respond(callbacks, msgId, DecodeInput("go1.20", msg), ctx, request, response, decode, validate).outcome
         == Json(ErrorBody(-1, "bad json msg"))
  {
  }

  /**
    What the tables hold for one id: the pools build the request and
    response types the callback's inputs 1 and 2 point to, the response pool
    holds only zero instances, and nothing is ever put in the zero-value pool.
   */
  ghost predicate EntryConsistent(callback: Callback, requestPool: Pool, responsePool: Pool, zeroPool: Pool)
  {
    && callback.sig.FuncType?
    && |callback.sig.ins| == 3
    && callback.sig.ins[1] == PointerType(requestPool.elem)
    && callback.sig.ins[2] == PointerType(responsePool.elem)
    && zeroPool.elem == responsePool.elem
    && AllZero(responsePool.free)
    && zeroPool.free == []
  }

  /**
    The invariant of the server's tables: every id has a callback and all
    three pools, every callback has a type Register accepts, and each id's
    callback and pools agree. With CheckHandlerExactly, the first two facts
    about an id say that CheckHandler gives the types its pools build.
   */
  ghost predicate Consistent(callbacks: map<uint64, Callback>, requestCache: map<uint64, Pool>,
                             responseCache: map<uint64, Pool>, responseZeroValueCache: map<uint64, Pool>)
  {
    && requestCache.Keys == callbacks.Keys
    && responseCache.Keys == callbacks.Keys
    && responseZeroValueCache.Keys == callbacks.Keys
    && (forall id {:trigger WellShaped(callbacks[id].sig)} :: id in callbacks ==> WellShaped(callbacks[id].sig))
    && (forall id :: id in callbacks ==>
          EntryConsistent(callbacks[id], requestCache[id], responseCache[id], responseZeroValueCache[id]))
  }

  /** In consistent tables, Register's check of each id's callback gives the types its pools build. */
  lemma ConsistentTypes(callbacks: map<uint64, Callback>, requestCache: map<uint64, Pool>,
                        responseCache: map<uint64, Pool>, responseZeroValueCache: map<uint64, Pool>, id: uint64)
    requires Consistent(callbacks, requestCache, responseCache, responseZeroValueCache)
    requires id in callbacks
    ensures CheckHandler(callbacks[id].sig) == Some(ArgTypes(requestCache[id].elem, responseCache[id].elem))
  {
    assert WellShaped(callbacks[id].sig);
    CheckHandlerExactly(callbacks[id].sig);
  }

  /** Installing fresh pools and the callback for a well-shaped handler keeps the tables consistent. */
  lemma RegisterKeepsConsistent(callbacks: map<uint64, Callback>, requestCache: map<uint64, Pool>,
                                responseCache: map<uint64, Pool>, responseZeroValueCache: map<uint64, Pool>,
                                protocolId: uint64, handler: Callback)
    requires Consistent(callbacks, requestCache, responseCache, responseZeroValueCache)
    requires WellShaped(handler.sig)
    ensures var args := CheckHandler(handler.sig).value;
      Consistent(callbacks[protocolId := handler],
                 requestCache[protocolId := NewPool(args.request)],
                 responseCache[protocolId := NewPool(args.response)],
                 responseZeroValueCache[protocolId := NewPool(args.response)])
  {
    CheckHandlerExactly(handler.sig);
  }

  /**
    Taking a request and a response instance for a registered id, putting
    back any request and a zero response, and consulting the zero-value pool
    keeps the tables consistent: the response pool still holds only zero
    instances, so the response handed to the handler is always a zero one.
   */
  lemma DispatchKeepsConsistent(callbacks: map<uint64, Callback>, requestCache: map<uint64, Pool>,
                                responseCache: map<uint64, Pool>, responseZeroValueCache: map<uint64, Pool>,
                                msgId: uint64, returned: Value)
    requires Consistent(callbacks, requestCache, responseCache, responseZeroValueCache)
    requires msgId in callbacks
    ensures Get(responseCache[msgId]).0 == Zero
    ensures Get(responseZeroValueCache[msgId]) == (Zero, responseZeroValueCache[msgId])
    ensures Consistent(callbacks,
                       requestCache[msgId := Put(Get(requestCache[msgId]).1, returned)],
                       responseCache[msgId := Put(Get(responseCache[msgId]).1, Zero)],
                       responseZeroValueCache)
  {
    var requests := requestCache[msgId := Put(Get(requestCache[msgId]).1, returned)];
    var responses := responseCache[msgId := Put(Get(responseCache[msgId]).1, Zero)];
    assert EntryConsistent(callbacks[msgId], requestCache[msgId], responseCache[msgId], responseZeroValueCache[msgId]);
    EntryAfterDispatch(callbacks[msgId], requestCache[msgId], responseCache[msgId], responseZeroValueCache[msgId], returned);
    forall id | id in callbacks
      ensures EntryConsistent(callbacks[id], requests[id], responses[id], responseZeroValueCache[id])
    {
      if id != msgId {
        assert requests[id] == requestCache[id] && responses[id] == responseCache[id];
      }
    }
  }

  /** One id's entry after a dispatch: the response handed out was zero, and the entry still agrees. */
  lemma EntryAfterDispatch(callback: Callback, requestPool: Pool, responsePool: Pool, zeroPool: Pool, returned: Value)
    requires EntryConsistent(callback, requestPool, responsePool, zeroPool)
    ensures Get(responsePool).0 == Zero
    ensures Get(zeroPool) == (Zero, zeroPool)
    ensures EntryConsistent(callback, Put(Get(requestPool).1, returned), Put(Get(responsePool).1, Zero), zeroPool)
  {
    ZeroPoolStaysZero(responsePool);
  }

  /**
    The copy loop of Register: a new map holding every entry of the
    published one, built key by key so the published map is never written.
   */
  method CopyCallbacks(published: map<uint64, Callback>) returns (copy: map<uint64, Callback>)
    ensures copy == published
  {
    copy := map[];
    var pending := published.Keys;
    while pending != {}
      invariant pending <= published.Keys
      invariant copy.Keys == published.Keys - pending
      invariant forall k :: k in copy ==> copy[k] == published[k]
      decreases pending
    {
      assert pending != {};
      var key :| key in pending;
      copy := copy[key := published[key]];
      pending := pending - {key};
    }
  }

  /**
    The pool work of one dispatch, on the three pools of the id: take a
    request and a response instance, answer as Respond says, then run the
    deferred calls, last deferred first: reset the response to what the
    zero-value pool gives and put it back, then put the request back as it
    was left.
   */
  method ServePools(callbacks: map<uint64, Callback>, msgId: uint64, payload: string, ctx: Plugin.Context,
                    decode: Decoder, validate: Validator, requestCachePool: Pool, responseCachePool: Pool, responsePool: Pool)
    returns (out: Outcome, left: Value, requestsAfter: Pool, responsesAfter: Pool)
    ensures var takenRequest := Get(requestCachePool);
      var takenResponse := Get(responseCachePool);
      var f := Respond(callbacks, msgId, payload, ctx, takenRequest.0, takenResponse.0, decode, validate);
      && out == f.outcome
      && left == f.request
      && requestsAfter == Put(takenRequest.1, left)
      && responsesAfter == Put(takenResponse.1, Get(responsePool).0)
  {
    // take a request instance; putting it back is deferred
    var takenRequest := Get(requestCachePool);
    var request := takenRequest.0;
    requestsAfter := takenRequest.1;

    // take a response instance; resetting and putting it back is deferred
    var takenResponse := Get(responseCachePool);
    var response := takenResponse.0;
    responsesAfter := takenResponse.1;

    var f := Respond(callbacks, msgId, payload, ctx, request, response, decode, validate);
    out := f.outcome;
    left := f.request;

    // deferred: reset the response and put it back, then put the request back
    var zero := Get(responsePool).0;
    responsesAfter := Put(responsesAfter, zero);
    requestsAfter := Put(requestsAfter, left);
  }

  /** HttpServerImpl: the callbacks map and the three per-id pool tables. */
  class HttpServer {
    /** The published callbacks map; Register replaces it by a new map and never updates it in place. */
    var callbacks: map<uint64, Callback>
    var requestCache: map<uint64, Pool>
    var responseCache: map<uint64, Pool>
    var responseZeroValueCache: map<uint64, Pool>

    ghost predicate Valid()
      reads this
    {
      Consistent(callbacks, requestCache, responseCache, responseZeroValueCache)
    }

    /** The three pool tables all hold `id`. */
    ghost predicate Pooled(id: uint64)
      reads this
    {
      id in requestCache && id in responseCache && id in responseZeroValueCache
    }

    /** The tables as NewHttpServer leaves them: all empty. */
    constructor ()
      ensures Valid()
      ensures callbacks == map[] && requestCache == map[] && responseCache == map[] && responseZeroValueCache == map[]
    {
      callbacks := map[];
      requestCache := map[];
      responseCache := map[];
      responseZeroValueCache := map[];
    }

    /**
      Register(protocolId, handler). It fails (the source panics) unless the
      handler's type is func(context.Context, *Req, *Resp) error, and then
      nothing changes. Otherwise it installs fresh request, response and
      zero-response pools for the id, and publishes a copy of the callbacks
      map with the id bound to the handler: every other id keeps its
      callback, and an id registered before is overwritten.
     */
    method Register(protocolId: uint64, handler: Callback) returns (ok: bool)
      requires Valid()
      modifies this
      ensures Valid()
      ensures ok <==> WellShaped(handler.sig)
      ensures !ok ==> && callbacks == old(callbacks) && requestCache == old(requestCache)
                      && responseCache == old(responseCache) && responseZeroValueCache == old(responseZeroValueCache)
      ensures ok ==> var args := CheckHandler(handler.sig).value;
        && callbacks == old(callbacks)[protocolId := handler]
        && requestCache == old(requestCache)[protocolId := NewPool(args.request)]
        && responseCache == old(responseCache)[protocolId := NewPool(args.response)]
        && responseZeroValueCache == old(responseZeroValueCache)[protocolId := NewPool(args.response)]
    {
      CheckHandlerExactly(handler.sig);
      var args := CheckHandler(handler.sig);
      if args.None? {
        return false;
      }
      RegisterKeepsConsistent(callbacks, requestCache, responseCache, responseZeroValueCache, protocolId, handler);

      requestCache := requestCache[protocolId := NewPool(args.value.request)];
      responseCache := responseCache[protocolId := NewPool(args.value.response)];
      responseZeroValueCache := responseZeroValueCache[protocolId := NewPool(args.value.response)];

      // copy-on-write: copy every published entry into a new map, add the new one, then publish it
      var newCallbacks := CopyCallbacks(callbacks);
      newCallbacks := newCallbacks[protocolId := handler];
      callbacks := newCallbacks;
      ok := true;
    }

    /**
      DispatchMsg for one request. It aborts with no body when the request
      fails the checks of Admit, and when the id is missing from any pool
      table, in both cases before any instance is taken from a pool.
      Otherwise it takes a request and a (zero) response instance, answers as
      Respond says, and on every path returns both: the response reset to a
      zero instance, the request as the decoder and handler left it.
     */
    method DispatchMsg(c: GinRequest, ctx: Plugin.Context, goVersion: string, decode: Decoder, validate: Validator)
      returns (out: Outcome)
      requires Valid()
      modifies this
      ensures Valid()
      ensures callbacks == old(callbacks) && responseZeroValueCache == old(responseZeroValueCache)
      ensures Admit(c).None? ==>
        out == Aborted && requestCache == old(requestCache) && responseCache == old(responseCache)
      ensures Admit(c).Some? && !old(Pooled(Admit(c).value.0)) ==>
        out == Aborted && requestCache == old(requestCache) && responseCache == old(responseCache)
      ensures Admit(c).Some? && old(Pooled(Admit(c).value.0)) ==>
        var msgId := Admit(c).value.0;
        var takenRequest := Get(old(requestCache)[msgId]);
        var takenResponse := Get(old(responseCache)[msgId]);
        var f := Respond(old(callbacks), msgId, DecodeInput(goVersion, Admit(c).value.1), ctx,
                         takenRequest.0, takenResponse.0, decode, validate);
        && takenResponse.0 == Zero
        && out == f.outcome
        && requestCache == old(requestCache)[msgId := Put(takenRequest.1, f.request)]
        && responseCache == old(responseCache)[msgId := Put(takenResponse.1, Zero)]
    {
      // the query guard, the msg_id length and parse, and the empty-msg check
      var admitted := Admit(c);
      if admitted.None? {
        return Aborted;
      }
      var (msgId, strMsg) := admitted.value;

      // the lookups of the three pools
      if msgId !in requestCache {
        return Aborted;
      }
      if msgId !in responseCache {
        return Aborted;
      }
      if msgId !in responseZeroValueCache {
        return Aborted;
      }
      out := Serve(msgId, DecodeInput(goVersion, strMsg), ctx, decode, validate);
    }

    /**
      DispatchMsg once the id has been found in all three pool tables: take
      a request and a (zero) response instance, answer as Respond says, and
      on every path return both, the response reset to a zero instance and
      the request as the decoder and handler left it.
     */
    method Serve(msgId: uint64, payload: string, ctx: Plugin.Context, decode: Decoder, validate: Validator)
      returns (out: Outcome)
      requires Valid() && Pooled(msgId)
      modifies this
      ensures Valid()
      ensures callbacks == old(callbacks) && responseZeroValueCache == old(responseZeroValueCache)
      ensures var takenRequest := Get(old(requestCache)[msgId]);
        var takenResponse := Get(old(responseCache)[msgId]);
        var f := Respond(old(callbacks), msgId, payload, ctx, takenRequest.0, takenResponse.0, decode, validate);
        && takenResponse.0 == Zero
        && out == f.outcome
        && requestCache == old(requestCache)[msgId := Put(takenRequest.1, f.request)]
        && responseCache == old(responseCache)[msgId := Put(takenResponse.1, Zero)]
    {
      var left, requestCachePool, responseCachePool;
      out, left, requestCachePool, responseCachePool :=
        ServePools(callbacks, msgId, payload, ctx, decode, validate,
                   requestCache[msgId], responseCache[msgId], responseZeroValueCache[msgId]);
      DispatchKeepsConsistent(callbacks, requestCache, responseCache, responseZeroValueCache, msgId, left);
      requestCache := requestCache[msgId := requestCachePool];
      responseCache := responseCache[msgId := responseCachePool];
    }
  }

  const HiJson: string := "{\"message\":\"hi\"}"

  /** A decoder that understands exactly {"message":"hi"}; any other payload is bad JSON and leaves the request as it was. */
  function HiDecoder(): Decoder
  {
    (payload: string, into: Value) => if payload == HiJson then Decoded(into["message" := "hi"]) else BadJson(into)
  }

  const EchoType: TypeDesc := HandlerType(EchoRequestType, EchoResponseType)

  function SnakeRequest(msgId: string, msg: string): GinRequest
  {
    GinRequest(map["m" := "snake", "a" := "snake_require"], map["msg_id" := msgId, "msg" := msg])
  }

  /** A snake request with msg_id of 1 to 10 digits and a non-empty msg gets past the checks with the digits' value. */
  lemma SnakeAdmitted(digits: string, msg: string)
    requires 1 <= |digits| <= 10 && AllDigits(digits) && msg != []
    ensures Admit(SnakeRequest(digits, msg)) == Some((DecimalValue(digits), msg))
  {
    var c := SnakeRequest(digits, msg);
    assert Query(c, "m") == "snake" && Query(c, "a") == "snake_require";
    assert PostForm(c, "msg_id") == digits && PostForm(c, "msg") == msg;
    AdmitExactly(c);
  }

  const Accept: Validator := (v: Value) => Passed

  const EchoRequestType: TypeDesc := NamedType("EchoRequest", Struct, {}, {})
  const EchoResponseType: TypeDesc := NamedType("EchoResponse", Struct, {}, {})

  /** A new server with an echo handler registered under id 7: the id is bound in all four tables, every pool empty. */
  method EchoServer() returns (server: HttpServer)
    ensures fresh(server) && server.Valid()
    ensures server.callbacks == map[7 := Callback(EchoType, Plugin.Echo())]
    ensures server.requestCache == map[7 := NewPool(EchoRequestType)]
    ensures server.responseCache == map[7 := NewPool(EchoResponseType)]
    ensures server.responseZeroValueCache == map[7 := NewPool(EchoResponseType)]
  {
    server := new HttpServer();
    var ok := server.Register(7, Callback(EchoType, Plugin.Echo()));
    assert ok;
  }

  /**
    {"message":"hi"} sent to the echo handler under id 7 is answered with
    {"message":"hi"}; since requests go back to their pool without a reset,
    the next request instance for id 7 still carries "hi".
   */
  method EchoScenario() returns (echoed: Outcome, nextRequest: Value)
    ensures echoed == Json(ResponseBody(map["message" := "hi"]))
    ensures nextRequest == map["message" := "hi"]
  {
    var server := EchoServer();
    var hiRequest: Value := map["message" := "hi"];
    SnakeAdmitted("7", HiJson);
    assert DecimalValue("7") == 7;
    assert Respond(server.callbacks, 7, HiJson, map[], Zero, Zero, HiDecoder(), Accept)
        == Finish(Json(ResponseBody(hiRequest)), hiRequest, hiRequest) by {
      assert HiDecoder()(HiJson, Zero) == Decoded(hiRequest);
      assert Plugin.Echo()(map[], Plugin.State(hiRequest, Zero, [])).state == Plugin.State(hiRequest, hiRequest, []);
    }
    echoed := server.DispatchMsg(SnakeRequest("7", HiJson), map[], "go1.22", HiDecoder(), Accept);
    PutThenGet(NewPool(EchoRequestType), hiRequest);
    nextRequest := Get(server.requestCache[7]).0;
  }

  /** A well-formed request for id 8, which nothing registered, is aborted with no body. */
  method UnknownIdScenario() returns (unknown: Outcome)
    ensures unknown == Aborted
  {
    var server := EchoServer();
    SnakeAdmitted("8", HiJson);
    assert DecimalValue("8") == 8;
    unknown := server.DispatchMsg(SnakeRequest("8", HiJson), map[], "go1.22", HiDecoder(), Accept);
  }

  /** A truncated payload for id 7 is answered with {-1, "bad json msg"}. */
  method TruncatedScenario() returns (truncated: Outcome)
    ensures truncated == Json(ErrorBody(-1, "bad json msg"))
  {
    var server := EchoServer();
    var cut := "{\"message\":";
    SnakeAdmitted("7", cut);
    assert DecimalValue("7") == 7;
    DecodeFailureSkipsHandler(server.callbacks, server.callbacks, 7, cut, map[], Zero, Zero, HiDecoder(), Accept);
    truncated := server.DispatchMsg(SnakeRequest("7", cut), map[], "go1.22", HiDecoder(), Accept);
  }
}
