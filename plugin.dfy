/**
  Model of plugin.go. A Handler is called with a context and the request and
  response it points to, may change both, and returns an error or nothing. A
  Plugin wraps a Handler into another Handler, and Chain composes plugins so
  that the first one listed is the outermost.
 */
module Plugin {
  import opened Values

  /** The context.Context a handler receives; only the values it carries are kept. */
  type Context = map<string, string>

  /**
    An error a handler returns: a status error (it carries a code and a
    message that `status.FromError` recovers) or any other error, of which
    only the `Error()` text is visible.
   */
  datatype Error =
    | StatusError(code: int, message: string)
    | PlainError(message: string)

  /** A step a plugin records on entry and on exit (log lines such as "start" and "end"). */
  datatype Event = Enter(name: string) | Exit(name: string)

  /** What a handler can read and change: the request, the response, and the events recorded so far. */
  datatype State = State(request: Value, response: Value, log: seq<Event>)

  /** The error a handler returns (None for nil) and the state it leaves behind. */
  datatype Reply = Reply(err: Option<Error>, state: State)

  type Handler = (Context, State) -> Reply

  type Plugin = Handler -> Handler

  /** Two handlers that answer every call alike. */
  ghost predicate Same(f: Handler, g: Handler)
  {
    forall ctx, s :: f(ctx, s) == g(ctx, s)
  }

  /**
    A plugin that uses the handler it wraps only by calling it, as NopPlugin
    and the message-setting plugin of the example do: handlers that answer
    alike are wrapped into handlers that answer alike. (A Go plugin could
    also inspect `next` itself, by a nil test or by reflection; such a
    plugin need not be congruent.)
   */
  ghost predicate Congruent(p: Plugin)
  {
    forall f, g :: Same(f, g) ==> Same(p(f), p(g))
  }

  /** NopPlugin: the plugin that calls the next handler and nothing else. */
  function NopPlugin(): Plugin
  {
    (next: Handler) => (ctx: Context, s: State) => next(ctx, s)
  }

  /** Nest(ps, next) is ps[0](ps[1](… ps[|ps| - 1](next))). */
  function Nest(ps: seq<Plugin>, next: Handler): Handler
  {
    if ps == [] then next else ps[0](Nest(ps[1..], next))
  }

  /** The plugin that `Chain(outer, others...)` returns, as a value. */
  function ChainOf(outer: Plugin, others: seq<Plugin>): Plugin
  {
    next => outer(Nest(others, next))
  }

  /**
    The closure that `Chain(outer, others...)` returns, applied to `next`:
    it wraps `next` in the others from the last to the first and then in
    `outer`, so the first plugin listed is the outermost.
   */
  method Chain(outer: Plugin, others: seq<Plugin>, next: Handler) returns (h: Handler)
    ensures h == ChainOf(outer, others)(next)
  {
    h := next;
    var i := |others| - 1;
    while i >= 0
      invariant -1 <= i < |others|
      invariant h == Nest(others[i + 1..], next)
    {
      h := others[i](h);
      i := i - 1;
    }
    h := outer(h);
  }

  /** With no other plugins, the chain is `outer` itself. */
  lemma ChainOfOuterOnly(outer: Plugin, next: Handler)
    ensures ChainOf(outer, [])(next) == outer(next)
  {
    assert Nest([], next) == next;
  }

  /** Calling through NopPlugin gives the same reply, request and response as calling the handler. */
  lemma NopIsIdentity(next: Handler)
    ensures Same(NopPlugin()(next), next)
  {
  }

  /** Nesting a concatenation is nesting the two parts one inside the other. */
  lemma {:induction false} NestAppend(xs: seq<Plugin>, ys: seq<Plugin>, next: Handler)
    ensures Nest(xs + ys, next) == Nest(xs, Nest(ys, next))
  {
    if xs != [] {
      assert (xs + ys)[1..] == xs[1..] + ys;
      NestAppend(xs[1..], ys, next);
    } else {
      assert xs + ys == ys;
    }
  }

  /** A chain used as one of the plugins of another chain can be spliced into it. */
  lemma ChainFlatten(a: Plugin, xs: seq<Plugin>, b: Plugin, ys: seq<Plugin>, zs: seq<Plugin>, next: Handler)
    ensures ChainOf(a, xs + [ChainOf(b, ys)] + zs)(next) == ChainOf(a, xs + [b] + ys + zs)(next)
  {
    var inner := ChainOf(b, ys);
    calc {
      Nest(xs + [inner] + zs, next);
      { NestAppend(xs + [inner], zs, next); }
      Nest(xs + [inner], Nest(zs, next));
      { NestAppend(xs, [inner], Nest(zs, next)); }
      Nest(xs, Nest([inner], Nest(zs, next)));
      Nest(xs, b(Nest(ys, Nest(zs, next))));
      { NestAppend(ys, zs, next); }
      Nest(xs, b(Nest(ys + zs, next)));
      Nest(xs, Nest([b] + (ys + zs), next));
      { NestAppend(xs, [b] + (ys + zs), next); }
      Nest(xs + ([b] + (ys + zs)), next);
      { assert xs + ([b] + (ys + zs)) == xs + [b] + ys + zs; }
      Nest(xs + [b] + ys + zs, next);
    }
  }

  /** A chain used as the outer plugin of another chain can be spliced into it: `Chain(Chain(a, xs...), ys...)` is `Chain(a, xs..., ys...)`. */
  lemma OuterFlatten(a: Plugin, xs: seq<Plugin>, ys: seq<Plugin>, next: Handler)
    ensures ChainOf(ChainOf(a, xs), ys)(next) == ChainOf(a, xs + ys)(next)
  {
    NestAppend(xs, ys, next);
  }

  /** `Chain(a, Chain(b, c))` is `Chain(a, b, c)`. */
  lemma NestedChainIsFlat(a: Plugin, b: Plugin, c: Plugin, next: Handler)
    ensures ChainOf(a, [ChainOf(b, [c])])(next) == ChainOf(a, [b, c])(next)
  {
    ChainFlatten(a, [], b, [c], [], next);
    assert [] + [ChainOf(b, [c])] + [] == [ChainOf(b, [c])];
    assert [] + [b] + [c] + [] == [b, c];
  }

  /** Wrapping handlers that answer alike in congruent plugins keeps them answering alike. */
  lemma {:induction false} NestCongruent(ps: seq<Plugin>, f: Handler, g: Handler)
    requires forall i :: 0 <= i < |ps| ==> Congruent(ps[i])
    requires Same(f, g)
    ensures Same(Nest(ps, f), Nest(ps, g))
  {
    if ps != [] {
      NestCongruent(ps[1..], f, g);
      assert Congruent(ps[0]);
    }
  }

  /** Adding NopPlugin at any position of a chain of congruent plugins does not change how it answers. */
  lemma NopInsertion(outer: Plugin, xs: seq<Plugin>, ys: seq<Plugin>, next: Handler)
    requires Congruent(outer)
    requires forall i :: 0 <= i < |xs| ==> Congruent(xs[i])
    ensures Same(ChainOf(outer, xs + [NopPlugin()] + ys)(next), ChainOf(outer, xs + ys)(next))
  {
    var inner := Nest(ys, next);
    NestAppend(xs + [NopPlugin()], ys, next);
    NestAppend(xs, [NopPlugin()], inner);
    NestAppend(xs, ys, next);
    NopIsIdentity(inner);
    NestCongruent(xs, NopPlugin()(inner), inner);
  }

  /** NopPlugin in the outer slot, in front of a whole chain, does not change how it answers. */
  lemma NopAsOuter(outer: Plugin, others: seq<Plugin>, next: Handler)
    ensures Same(ChainOf(NopPlugin(), [outer] + others)(next), ChainOf(outer, others)(next))
  {
    assert ([outer] + others)[1..] == others;
    assert Nest([outer] + others, next) == outer(Nest(others, next));
    NopIsIdentity(outer(Nest(others, next)));
  }

  /** n copies of NopPlugin. */
  function Nops(n: nat): (ps: seq<Plugin>)
    ensures |ps| == n
  {
    if n == 0 then [] else [NopPlugin()] + Nops(n - 1)
  }

  /** Chain adds no behaviour of its own: a chain of NopPlugins answers as the handler it wraps. */
  lemma {:induction false} NopChainIsIdentity(n: nat, next: Handler)
    ensures Same(ChainOf(NopPlugin(), Nops(n))(next), next)
  {
    NopsAreIdentity(n, next);
    NopIsIdentity(Nest(Nops(n), next));
  }

  lemma {:induction false} NopsAreIdentity(n: nat, next: Handler)
    ensures Same(Nest(Nops(n), next), next)
  {
    if n > 0 {
      NopsAreIdentity(n - 1, next);
      NopIsIdentity(Nest(Nops(n - 1), next));
    }
  }

  /** The reply `r` with `events` recorded after everything it already recorded. */
  function Record(r: Reply, events: seq<Event>): Reply
  {
    r.(state := r.state.(log := r.state.log + events))
  }

  /** A plugin that records Enter(name), calls the next handler, then records Exit(name), whatever it returned. */
  function Logging(name: string): Plugin
  {
    (next: Handler) => (ctx: Context, s: State) =>
      Record(next(ctx, s.(log := s.log + [Enter(name)])), [Exit(name)])
  }

  function Loggers(names: seq<string>): (ps: seq<Plugin>)
    ensures |ps| == |names|
  {
    if names == [] then [] else [Logging(names[0])] + Loggers(names[1..])
  }

  /** The entry events of `names`, outermost first. */
  function EntryLog(names: seq<string>): (log: seq<Event>)
    ensures |log| == |names|
    ensures forall i :: 0 <= i < |names| ==> log[i] == Enter(names[i])
  {
    if names == [] then [] else [Enter(names[0])] + EntryLog(names[1..])
  }

  /** The exit events of `names`, innermost first: the reverse of the entry order. */
  function ExitLog(names: seq<string>): (log: seq<Event>)
    ensures |log| == |names|
    ensures forall i :: 0 <= i < |names| ==> log[i] == Exit(names[|names| - 1 - i])
  {
    if names == [] then [] else ExitLog(names[1..]) + [Exit(names[0])]
  }

  /** The outermost of a list of logging plugins wraps the fold of the rest. */
  lemma NestLoggersCons(names: seq<string>, next: Handler)
    requires names != []
    ensures Nest(Loggers(names), next) == Logging(names[0])(Nest(Loggers(names[1..]), next))
  {
    assert Loggers(names) == [Logging(names[0])] + Loggers(names[1..]);
  }

  /** Recording two batches of events is recording them together. */
  lemma RecordTwice(r: Reply, first: seq<Event>, second: seq<Event>)
    ensures Record(Record(r, first), second) == Record(r, first + second)
  {
    assert r.state.log + first + second == r.state.log + (first + second);
  }

  /** The onion law for no logging plugins: `next` runs on the state as it is. */
  lemma LoggersOnionNil(next: Handler, ctx: Context, s: State)
    ensures Nest(Loggers([]), next)(ctx, s) == Record(next(ctx, s.(log := s.log + EntryLog([]))), ExitLog([]))
  {
    assert s.(log := s.log + []) == s;
    var r := next(ctx, s);
    assert r.state.(log := r.state.log + []) == r.state;
  }

  /** The outermost logging plugin records its entry, runs the rest, then records its exit. */
  lemma LoggersConsApply(names: seq<string>, next: Handler, ctx: Context, s: State)
    requires names != []
    ensures Nest(Loggers(names), next)(ctx, s)
         == Record(Nest(Loggers(names[1..]), next)(ctx, s.(log := s.log + [Enter(names[0])])), [Exit(names[0])])
  {
    NestLoggersCons(names, next);
  }

  /** Entering the first plugin and then the rest is entering them all. */
  lemma EnterShift(names: seq<string>, s: State)
    requires names != []
    ensures var s' := s.(log := s.log + [Enter(names[0])]);
      s'.(log := s'.log + EntryLog(names[1..])) == s.(log := s.log + EntryLog(names))
  {
    assert s.log + [Enter(names[0])] + EntryLog(names[1..]) == s.log + EntryLog(names);
  }

  /** The onion law for `names` follows from the one for `names[1..]`, started after the first entry. */
  lemma LoggersOnionCons(names: seq<string>, next: Handler, ctx: Context, s: State)
    requires names != []
    requires var s' := s.(log := s.log + [Enter(names[0])]);
      Nest(Loggers(names[1..]), next)(ctx, s')
        == Record(next(ctx, s'.(log := s'.log + EntryLog(names[1..]))), ExitLog(names[1..]))
    ensures Nest(Loggers(names), next)(ctx, s)
         == Record(next(ctx, s.(log := s.log + EntryLog(names))), ExitLog(names))
  {
    LoggersConsApply(names, next, ctx, s);
    EnterShift(names, s);
    RecordTwice(next(ctx, s.(log := s.log + EntryLog(names))), ExitLog(names[1..]), [Exit(names[0])]);
  }

  /**
    Nested logging plugins enter from the outside in, then the handler runs,
    then they exit from the inside out.
   */
  lemma {:induction false} LoggersOnion(names: seq<string>, next: Handler, ctx: Context, s: State)
    ensures Nest(Loggers(names), next)(ctx, s)
         == Record(next(ctx, s.(log := s.log + EntryLog(names))), ExitLog(names))
  {
    if names == [] {
      LoggersOnionNil(next, ctx, s);
    } else {
      LoggersOnion(names[1..], next, ctx, s.(log := s.log + [Enter(names[0])]));
      LoggersOnionCons(names, next, ctx, s);
    }
  }

  /**
    For `Chain(Logging(outer), Logging(p1), …, Logging(pn))` wrapping `next`:
    the entries are outer, p1, …, pn, then `next` runs once, then the exits
    are pn, …, p1, outer.
   */
  lemma ChainOnion(outer: string, names: seq<string>, next: Handler, ctx: Context, s: State)
    ensures ChainOf(Logging(outer), Loggers(names))(next)(ctx, s)
         == Record(next(ctx, s.(log := s.log + EntryLog([outer] + names))), ExitLog([outer] + names))
  {
    assert Loggers([outer] + names) == [Logging(outer)] + Loggers(names) by {
      assert ([outer] + names)[1..] == names;
    }
    LoggersOnion([outer] + names, next, ctx, s);
  }

  /** A plugin that overwrites the request's "message" field before calling the next handler. */
  function SetMessage(text: string): Plugin
  {
    (next: Handler) => (ctx: Context, s: State) => next(ctx, s.(request := s.request["message" := text]))
  }

  /** A handler that copies the request's "message" into the response and returns nil. */
  function Echo(): Handler
  {
    (ctx: Context, s: State) => Reply(None, s.(response := s.response["message" := Field(s.request, "message")]))
  }

  /** With plugins "hello" then "world" around Echo, the handler sees "world": the last plugin listed runs last. */
  lemma HelloWorldScenario(ctx: Context, s: State)
    ensures ChainOf(SetMessage("hello"), [SetMessage("world")])(Echo())(ctx, s)
         == Reply(None, s.(request := s.request["message" := "world"], response := s.response["message" := "world"]))
  {
    var inner := Nest([SetMessage("world")], Echo());
    assert inner == SetMessage("world")(Echo());
  }
}
