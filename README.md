# gin-dispatcher: plugin chains and the message-dispatch registry

This project models the two sequential pieces of the gin-dispatcher server
package and proves properties about them.

- **Plugin composition** (`plugin.go`). A `Handler` takes a context and a
  request/response pair and returns an error. A `Plugin` wraps one handler in
  another. `Chain(outer, others...)` nests the plugins so that the first one
  listed is outermost. `NopPlugin` wraps without adding anything.
  - In the model, a handler is a Dafny function from a context and a `State` to
    a `Reply`. The state holds the request, the response and an event log. The
    reply holds the error and the state the handler leaves. The log lets
    each plugin's entry and exit be observed.
  - `Chain` is a method with the source's reverse loop. It is proved against
    `Nest`, a right fold.
- **The dispatch registry** (`http_gin.go`). `HttpServer` is a class holding
  the published callbacks map and three per-id pool tables.
  - `Register` checks the handler's reflect type against
    `func(context.Context, *Req, *Resp) error`. It then installs a request pool,
    a response pool and a zero-response pool. Last, it publishes a copy of the
    callbacks map with the new entry.
  - `DispatchMsg` passes one gin request through the guards: the query, the
    `msg_id` length and parse, and a non-empty `msg`. It then looks up the
    pools and takes a request and a response instance. It decodes, validates,
    looks up the callback and calls it, and maps the result to a JSON
    envelope or an abort. Its deferred calls return both instances to their
    pools.

Modules:

- `Values`: `Option`, field maps standing in for Go structs, and the zero value.
- `Plugin`: `plugin.go`.
- `Shape`: the reflect type checks of `Register`.
- `Strconv`: `strconv.ParseUint(s, 10, 64)`.
- `Pools`: `sync.Pool` as a sequential free-list.
- `HttpGin`: the server class, the outcome mapping and the table invariant.

Behaviour of handlers is compared with `Plugin.Same`, which means the same
reply on every input. Dafny has no function extensionality, so laws that
insert a plugin are stated up to `Same`. Laws that only re-bracket the fold
hold with `==`.

## Model

| member | source | states |
|---|---|---|
| Plugin.NopPlugin | plugin.go:22-28 | The wrapper that only calls the handler it wraps. Its properties are stated by `Plugin.NopIsIdentity`, `Plugin.NopInsertion`, `Plugin.NopAsOuter` and `Plugin.NopChainIsIdentity`. |
| Plugin.ChainOf | plugin.go:13-19 | The plugin `Chain(outer, others...)` returns, as a value. `Plugin.Chain` is proved to build its handler; the chain laws (`ChainOfOuterOnly`, `ChainFlatten`, `OuterFlatten`, `ChainOnion`) are stated about it. |
| Plugin.Chain | plugin.go:13-19 | The reverse loop over `others` followed by `outer` builds exactly the handler of the plugin `ChainOf(outer, others)` applied to `next`, that is `outer(p1(p2(…pn(next))))`: the first plugin listed is outermost and the last sits next to the terminal handler. |
| Plugin.ChainOfOuterOnly | plugin.go:13-19 | With no `others`, the chain applied to `next` is `outer(next)`. |
| Plugin.NopIsIdentity | plugin.go:22-28 | `NopPlugin()(h)` gives the same reply as `h`, including the request and response it leaves, for every context and state. |
| Plugin.NestAppend | plugin.go:15-17 | Folding `xs + ys` around `next` is folding `xs` around the fold of `ys`: each plugin is applied once, in list order. |
| Plugin.ChainFlatten | plugin.go:13-19 | A chain nested as one element of another chain, at any position among the others, behaves exactly as the flat list with the inner chain's outer plugin and its others spliced in. |
| Plugin.OuterFlatten | plugin.go:13-19 | A chain used as the outer plugin of another chain, `Chain(Chain(a, xs...), ys...)`, equals `Chain(a, xs..., ys...)` on every handler. |
| Plugin.NestedChainIsFlat | plugin.go:13-19 | `Chain(a, Chain(b, c))` equals `Chain(a, b, c)` on every handler. |
| Plugin.NestCongruent | plugin.go:15-17 | Folding plugins that respect behaviour around handlers that behave the same gives handlers that behave the same. |
| Plugin.NopInsertion | plugin.go:13-28 | Inserting `NopPlugin()` anywhere among `others` leaves the composed handler's behaviour unchanged, when the plugins before it respect behaviour. The outer slot is covered by `Plugin.NopAsOuter`. |
| Plugin.NopAsOuter | plugin.go:13-28 | Putting `NopPlugin()` in front of a whole chain, `Chain(NopPlugin(), outer, others...)`, answers as `Chain(outer, others...)` on every handler, with no assumption on the plugins. |
| Plugin.NopsAreIdentity | plugin.go:15-28 | A fold of any number of `NopPlugin`s behaves as the handler it wraps. |
| Plugin.NopChainIsIdentity | plugin.go:13-28 | A chain made only of `NopPlugin`s adds no behaviour of its own. |
| Plugin.EntryLog | plugin.go:13-19 | The entry events are one per plugin, with the i-th being `Enter` of the i-th listed plugin. |
| Plugin.ExitLog | plugin.go:13-19 | The exit events are one per plugin, in reverse order: the i-th is `Exit` of the i-th plugin from the end. |
| Plugin.LoggersOnion | plugin.go:15-17 | Nested logging plugins record their entries outermost first, then the terminal handler runs once, then they record their exits innermost first. |
| Plugin.LoggersOnionCons | plugin.go:15-17 | The induction step of `Plugin.LoggersOnion`. If the inner loggers already nest their events, one more logger outside adds its entry before theirs and its exit after theirs. |
| Plugin.ChainOnion | plugin.go:13-19 | For `Chain(outer, p1, …, pn)` of logging plugins, the entry order is outer, p1, …, pn, then the handler, and the exit order is the reverse. |
| Plugin.HelloWorldScenario | example/main.go:60-71 | With plugins setting "hello" then "world" around an echo handler, the handler sees and echoes "world", because the last plugin listed runs last. |
| Shape.CheckHandler | http_gin.go:90-125 | Register's checks in source order, each rejection collapsed into None. On success the type is a function of 3 inputs and 1 output, and the request and response types are what inputs 1 and 2 point to. Exactly which types pass is stated by `Shape.CheckHandlerExactly` and `Shape.HandlerTypeChecks`. |
| Shape.GinContextHandlerAccepted | http_gin.go:106-125 | A handler whose first input is `*gin.Context`, the value the dispatcher passes, is accepted with the same request and response types as the intended signature. |
| Shape.CheckHandlerExactly | http_gin.go:90-125 | Registration succeeds exactly when the type is a function with 3 inputs and 1 output, input 0 implements `context.Context`, inputs 1 and 2 are pointers, and the output implements `error`. On success, the request and response types are the pointees of inputs 1 and 2. |
| Shape.HandlerTypeChecks | http_gin.go:93-125 | The intended signature is accepted. Each single violation is rejected: request or response taken by value, a pointer to the context, a missing input, no output, two outputs, a non-error output, or a pointer to a function. |
| Strconv.Accumulate | http_gin.go:191 | The base-10, 64-bit digit loop of `strconv.ParseUint`. What it accepts and returns is stated by `Strconv.AccumulateValue`. |
| Strconv.ParseUint | http_gin.go:191-195 | `strconv.ParseUint(s, 10, 64)`, with an error for the empty string. Its exact behaviour is stated by `Strconv.ParseUintExactly` and `Strconv.ShortDecimalParses`. |
| Strconv.AccumulateValue | http_gin.go:191 | The decimal digit loop succeeds exactly on all-digit input whose value after the prefix read so far fits in 64 bits, and yields that value. |
| Strconv.ParseUintExactly | http_gin.go:191-195 | `ParseUint(s, 10, 64)` accepts exactly the non-empty decimal strings whose value is at most 2^64 - 1, and returns that value. |
| Strconv.DecimalValueBound | http_gin.go:186-191 | k decimal digits spell a number below 10^k. |
| Strconv.ShortDecimalParses | http_gin.go:186-195 | Every `msg_id` of 1 to 10 decimal digits parses to its value, which is at most 9999999999 < 2^64. |
| Pools.NewPool | http_gin.go:128-145 | A pool installed by Register for a type: it holds nothing, so its `Get` builds a zero instance of that type and leaves the pool as it is. |
| Pools.Get | http_gin.go:225-233 | `Get` keeps the pool's type. An empty pool yields a zero instance and is unchanged. Otherwise it yields an instance it held, and the rest of the pool plus that instance is what it held before. |
| Pools.Put | http_gin.go:225-233 | Returning an instance to a pool as it is. With `Get` it is stated by `Pools.PutThenGet` and `Pools.ZeroPoolStaysZero`. |
| Pools.PutThenGet | http_gin.go:225-233 | `Get` after `Put(v)` yields `v` and leaves the pool as it was before the `Put`. |
| Pools.ZeroPoolStaysZero | http_gin.go:229-233 | A pool that only ever receives zero instances hands out zero instances and keeps holding only those. |
| HttpGin.Admit | http_gin.go:178-201 | The guards DispatchMsg applies before it consults any table. Which requests pass, and with which id, is stated by `HttpGin.AdmitExactly`. |
| HttpGin.DecodeInput | http_gin.go:235-245 | The bytes handed to the decoder: the text of `msg`, or none on runtime "go1.20". Stated by `HttpGin.Go120DecodesNothing`. |
| HttpGin.Answer | http_gin.go:283-305 | How the handler's error, or nil, becomes the JSON body. Stated by `HttpGin.HandlerResultMapping` and `HttpGin.CodedErrorScenario`. |
| HttpGin.Respond | http_gin.go:247-305 | DispatchMsg from the decode on. Its outcome is given by `HttpGin.DecodeFailureSkipsHandler`, `HttpGin.ValidationFailureSkipsHandler`, `HttpGin.MissingCallbackAbortsLate` and `HttpGin.HandlerResultMapping`. |
| HttpGin.AdmitExactly | http_gin.go:178-201 | A request gets past the checks exactly when `m` is "snake", `a` is "snake_require", `msg_id` is 1 to 10 decimal digits and `msg` is not empty. Any other request aborts, and the id is the digits' value. |
| HttpGin.DecodeFailureSkipsHandler | http_gin.go:247-254 | A payload that does not decode is answered with `{-1, "bad json msg"}`. The result does not depend on the callbacks, so no handler runs, and the response instance is untouched. |
| HttpGin.ValidationFailureSkipsHandler | http_gin.go:256-272 | An `InvalidValidationError` is answered with `{-12, "invalid request"}` and field errors with `{-13, "invalid json args"}`. The result does not depend on the callbacks, and the response is untouched. |
| HttpGin.MissingCallbackAbortsLate | http_gin.go:274-281 | A missing callback gives an abort exactly when decoding and validation have both succeeded. |
| HttpGin.HandlerResultMapping | http_gin.go:283-305 | The handler is called with the decoded request and the pooled response. A status error gives its code and message, any other error gives -1 and its text, and nil gives the response the handler left. The instances come back as the handler left them. |
| HttpGin.CodedErrorScenario | http_gin.go:293-298 | A handler failing with status code 42 "quota exceeded" is answered with exactly that code and message, not -1. |
| HttpGin.Go120DecodesNothing | http_gin.go:235-254 | On runtime "go1.20" the decoder receives no bytes, so a decoder that rejects empty input answers every message with `{-1, "bad json msg"}`. |
| HttpGin.RegisterKeepsConsistent | http_gin.go:127-156 | Installing fresh request, response and zero-response pools and the callback for a well-shaped handler keeps the tables' invariant. The invariant: the same ids everywhere, pools of the types the callback points to, and zero-only response pools. |
| HttpGin.ConsistentTypes | http_gin.go:90-146 | Under the invariant, Register's signature check of each id's callback yields exactly the request and response types that the id's pools build. |
| HttpGin.DispatchKeepsConsistent | http_gin.go:224-233 | Taking one instance from each pool, putting back any request and a zero response keeps the invariant, and the zero-value pool always yields a zero instance. |
| HttpGin.CopyCallbacks | http_gin.go:148-153 | The copy loop produces a new map equal to the published one, entry by entry, without writing the published map. |
| HttpGin.HttpServer.constructor | http_gin.go:55-58 | A new server has all four tables empty and satisfies the invariant. |
| HttpGin.HttpServer.Register | http_gin.go:89-157 | Succeeds exactly on well-shaped handler types and changes nothing otherwise. On success, all three pool tables hold fresh pools for the id, the published callbacks map sends the id to the handler, every other id keeps its callback, a previous binding of the id is overwritten, and the invariant is kept. |
| HttpGin.HttpServer.DispatchMsg | http_gin.go:174-307 | Aborts with no body, touching no pool, when the guards fail or the id is missing from a pool table. Otherwise the response it takes is always a zero instance, its outcome is what `Respond` gives for the taken instances, and both instances go back: the request as the decoder and handler left it, the response reset to zero. The callbacks and the invariant are kept. |
| HttpGin.HttpServer.Serve | http_gin.go:224-307 | The part of DispatchMsg after the three pool lookups succeed. It takes a request and a response instance for the id, and the response is always a zero instance. Its outcome is what `Respond` gives for them. The request goes back as the decoder and handler left it, the response reset to zero, and the callbacks and the invariant are kept. |
| HttpGin.ServePools | http_gin.go:224-307 | The pool steps of one dispatch on the id's three pools: take one instance from each of the request and response pools, answer as `Respond` says, then run the deferred releases. The response pool gets back what the zero-value pool gives, and the request pool gets the request as it was left. |
| HttpGin.EntryAfterDispatch | http_gin.go:224-233 | For one id: the response taken is zero, the zero-value pool yields a zero instance and stays as it was, and putting back any request and a zero response keeps the entry consistent. |
| HttpGin.EchoServer | http_gin.go:52-58 | Registering an echo handler under id 7 in a new server binds 7 in all four tables with empty pools. |
| HttpGin.EchoScenario | http_gin.go:174-307 | `{"message":"hi"}` for id 7 is answered with `{"message":"hi"}`. The request goes back unreset, so the next request instance for 7 may still carry "hi": it does with the model's last-in-first-out pool, while a real `sync.Pool` may also drop it (see "## Left out"). |
| HttpGin.UnknownIdScenario | http_gin.go:203-208 | A well-formed request for id 8, which was never registered, aborts. |
| HttpGin.TruncatedScenario | http_gin.go:247-254 | A truncated payload for id 7 is answered with `{-1, "bad json msg"}`. |
| HttpGin.SnakeAdmitted | http_gin.go:178-201 | A snake request with a 1 to 10 digit `msg_id` and a non-empty `msg` is admitted with the digits' value. |

## Left out

- `NewHttpServer`, `Run`, `Close`: the gin engine, the zap and prometheus middleware, listener serving, shutdown and the `/ping` route are process lifecycle and I/O. Only the table initialisation is modelled, as the constructor.
- Logging (`log.Printf`, `log.Println`, `fmt.Println`) has no effect on the outcome and is left out.
- The `unsafe` string-to-bytes reinterpretation is left out: the payload is the text of `msg`. The `runtime.Version()` test is a parameter, and on exactly "go1.20" the decoder gets no bytes, as in the code.
- `jsoniter.Unmarshal`, `validator.Struct`, `status.FromError` and `reflect.Value.Call` are foreign code. The decoder and the validator are parameters that classify their outcome, and each callback stores a `Plugin.Handler` in place of `Call`. `status.FromError` is not a parameter: its two outcomes are the two constructors of `Plugin.Error`, a status error with its code and message, or any other error with its text. A handler's in-place writes to the request and response it is given are modelled as the state it returns.
- `sync.Pool` and `atomic.Value` concurrency is left out. Pools are sequential free-lists held by value, and `Get` returns the most recently put instance. The real pool may drop instances at any time, which the model does not capture. The model also has no aliasing between an instance handed out and the pool. The three pool tables are plain Go maps with no lock: `Register` writes them (http_gin.go:128-145) while `DispatchMsg` may be reading them (http_gin.go:203-222). A `Register` during a dispatch is therefore a data race in the source, unlike the copy-on-write callbacks map. The model runs one operation at a time and cannot show it.
- Shape.CheckHandler: the distinct panic messages of `Register` are collapsed into one failure. Method sets are compared by method name, not by full signature.
- Shape.CheckHandler: `Elem()` on inputs 1 and 2 runs before the pointer checks, as in the code. A slice input thus reaches the pointer check rather than panicking in `Elem()`, and both are failures.
- HttpGin.Respond: a gin context is passed to the handler as the `ctx` parameter. The handler's JSON encoding of the response is the response value itself.
- HttpGin.HttpServer.DispatchMsg: resetting the response uses the zero-value pool. That pool is never given anything, so its `Get` always builds a zero instance, and the model leaves that table unchanged.
- HttpGin.HttpServer.DispatchMsg: only the response is reset on release (http_gin.go:230-233). The request is put back as the decoder and handler left it (http_gin.go:226), so a later dispatch may decode into a stale request; `HttpGin.EchoScenario` shows this.
- HttpGin.Respond: a callback's behaviour is not tied to its declared signature. Two consequences follow. First, `Register` accepts a concrete result type that implements `error`, such as `*MyErr` (http_gin.go:123). Go then sees a non-nil `any` even when the handler returns a nil `*MyErr` (http_gin.go:286-289), and answers with -1 or panics in `Error()`; the model lets such a callback reply nil and answers with the response. Second, `Register` accepts any first input that implements `context.Context` (http_gin.go:111), and `Call` always passes a `*gin.Context` (http_gin.go:284-285). For a first input of type `*gin.Context` or `context.Context` this works in Go and in the model alike (`Shape.GinContextHandlerAccepted`). For a first input that a `*gin.Context` cannot be assigned to, Go's `Call` panics on every dispatch. That is any other concrete type, or an interface that `*gin.Context` does not satisfy. The model calls such a handler normally.
- HttpGin.HttpServer.DispatchMsg: panics are not modelled. The decoder, the validator and the handler are total oracles, so the model has no path where one of them panics. In the source, both deferred releases still run on that path (http_gin.go:226, 230-233) before gin's recovery sees the panic.
- Plugin.NopInsertion: the plugins before the inserted `NopPlugin` must respect behaviour (`Congruent`). That holds for every plugin that uses the handler it wraps only by calling it, as `NopPlugin` and the example plugin (example/main.go:60-71) do. A Go plugin that inspects `next` itself, by a nil test or by reflection, is not covered. Dafny has no function extensionality to drop the assumption.
- example/main.go drives an API (`NewMessages`, `GinDispatcher`, `Messages`) that is not part of this model. Only its hello/world plugin and its echo handler appear, as scenarios.
- http.go declares an interface with no logic and is not modelled.
