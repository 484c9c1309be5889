/** The middleware runner of web/engine/context.go.

    One index, shared by the whole request, is advanced by every call of `Next` and
    by every loop that such a call runs. Since each position starts at most once,
    what a handler does in a run is a list of acts. */
module Middleware {

  datatype Act = Emit(what: string) | CallNext | Panic

  /** `recovers`: the handler defers a function that recovers from panics. */
  datatype Handler = Handler(acts: seq<Act>, recovers: bool)

  datatype Event = Start(at: nat) | Did(at: nat, what: string) | Finish(at: nat)

  /** Events of a piece of execution, the index after it, and whether it panicked. */
  datatype Result = Result(events: seq<Event>, index: int, panicked: bool) {
    function After(before: seq<Event>): Result { Result(before + events, index, panicked) }
  }

  function Left(hs: seq<Handler>, i: int): nat { if i < |hs| then |hs| - i else 0 }

  /** The loop of `Next` entered with the index at `i`. */
  function Chain(hs: seq<Handler>, i: nat): (r: Result)
    ensures r.index >= i
    ensures !r.panicked ==> r.index >= |hs|
    decreases Left(hs, i), 2, 0
  {
    if i >= |hs| then Result([], i, false)
    else
      var r := RunHandler(hs, i);
      if r.panicked then r else Chain(hs, r.index + 1).After(r.events)
  }

  /** One handler call with the index at its position. */
  function RunHandler(hs: seq<Handler>, i: nat): (r: Result)
    requires i < |hs|
    ensures r.index >= i
    decreases Left(hs, i), 1, 0
  {
    var r := RunActs(hs, i, hs[i].acts, i).After([Start(i)]);
    if hs[i].recovers then r.(panicked := false) else r
  }

  /** The remaining acts of the handler at `me`, with the shared index at `index`. */
  function RunActs(hs: seq<Handler>, me: nat, acts: seq<Act>, index: nat): (r: Result)
    requires me < |hs| && me <= index
    ensures r.index >= index
    decreases Left(hs, me), 0, |acts|
  {
    if acts == [] then Result([Finish(me)], index, false)
    else
      match acts[0]
      case Emit(what) => RunActs(hs, me, acts[1..], index).After([Did(me, what)])
      case Panic => Result([], index, true)
      case CallNext =>
        var r := Chain(hs, index + 1);
        if r.panicked then r else RunActs(hs, me, acts[1..], r.index).After(r.events)
  }

  // ------------------------------------------------------------- the onion

  /** The intended meaning: a handler wraps the rest of the chain. Its first call of
      `Next` runs the rest, later calls do nothing, and a handler that never calls it
      is followed by the rest. */
  function Onion(hs: seq<Handler>, i: nat): seq<Event>
    decreases Left(hs, i), 1, 0
  {
    if i >= |hs| then [] else [Start(i)] + Layer(hs, i, hs[i].acts, false)
  }

  function Layer(hs: seq<Handler>, i: nat, acts: seq<Act>, used: bool): seq<Event>
    requires i < |hs|
    decreases Left(hs, i), 0, |acts|
  {
    var rest := if used then [] else Onion(hs, i + 1);
    if acts == [] then [Finish(i)] + rest
    else
      match acts[0]
      case Emit(what) => [Did(i, what)] + Layer(hs, i, acts[1..], used)
      case CallNext => rest + Layer(hs, i, acts[1..], true)
      case Panic => []
  }

  predicate NoPanic(acts: seq<Act>) {
    forall k :: 0 <= k < |acts| ==> !acts[k].Panic?
  }

  predicate NoPanics(hs: seq<Handler>) {
    forall i :: 0 <= i < |hs| ==> NoPanic(hs[i].acts)
  }

  /** What is left for the loop around handler i once it has returned. */
  function Rest(hs: seq<Handler>, i: nat, index: int): seq<Event> {
    if index == i then Onion(hs, i + 1) else []
  }

  /** The shared-index runner is the onion, for every list of handlers that do not
      panic, however often each calls `Next`. */
  lemma {:induction false} ChainIsOnion(hs: seq<Handler>, i: nat)
    requires NoPanics(hs)
    ensures !Chain(hs, i).panicked && Chain(hs, i).events == Onion(hs, i)
    decreases Left(hs, i), 2, 0
  {
    if i < |hs| {
      HandlerIsOnion(hs, i);
      if RunHandler(hs, i).index == i {
        ChainIsOnion(hs, i + 1);
      }
    }
  }

  lemma {:induction false} HandlerIsOnion(hs: seq<Handler>, i: nat)
    requires NoPanics(hs) && i < |hs|
    ensures var r := RunHandler(hs, i);
            && !r.panicked && (r.index == i || r.index >= |hs|)
            && r.events + Rest(hs, i, r.index) == Onion(hs, i)
    decreases Left(hs, i), 1, 0
  {
    ActsAreLayer(hs, i, hs[i].acts, i);
    var r := RunActs(hs, i, hs[i].acts, i);
    Associative([Start(i)], r.events, Rest(hs, i, r.index));
  }

  lemma {:induction false} ActsAreLayer(hs: seq<Handler>, i: nat, acts: seq<Act>, index: nat)
    requires i < |hs| && NoPanics(hs) && NoPanic(acts)
    requires index == i || index >= |hs|
    ensures var r := RunActs(hs, i, acts, index);
            && !r.panicked && (r.index == i || r.index >= |hs|)
            && r.events + Rest(hs, i, r.index) == Layer(hs, i, acts, index != i)
    decreases Left(hs, i), 0, |acts|, 1
  {
    if acts != [] {
      match acts[0]
      case Emit(what) =>
        ActsAreLayer(hs, i, acts[1..], index);
        var t := RunActs(hs, i, acts[1..], index);
        Associative([Did(i, what)], t.events, Rest(hs, i, t.index));
      case CallNext =>
        NextIsRest(hs, i, acts, index);
        var r := RunActs(hs, i, acts, index);
        assert r.events + [] == r.events;
    }
  }

  lemma Associative(a: seq<Event>, b: seq<Event>, c: seq<Event>)
    ensures a + b + c == a + (b + c)
  {
  }

  /** `Next` called inside a handler runs the rest the first time and nothing later. */
  lemma {:induction false} NextIsRest(hs: seq<Handler>, i: nat, acts: seq<Act>, index: nat)
    requires i < |hs| && NoPanics(hs) && NoPanic(acts)
    requires index == i || index >= |hs|
    requires acts != [] && acts[0].CallNext?
    ensures var r := RunActs(hs, i, acts, index);
            && !r.panicked && r.index >= |hs|
            && r.events == Layer(hs, i, acts, index != i)
    decreases Left(hs, i), 0, |acts|, 0
  {
    var c := Chain(hs, index + 1);
    if index == i {
      ChainIsOnion(hs, i + 1);
    }
    assert c.index >= |hs| && !c.panicked;
    ActsAreLayer(hs, i, acts[1..], c.index);
    var t := RunActs(hs, i, acts[1..], c.index);
    assert t.index >= |hs|;
    assert t.events + [] == t.events;
  }

  // ------------------------------------------------------------ start order

  function Starts(events: seq<Event>): seq<nat> {
    if events == [] then []
    else if events[0].Start? then [events[0].at] + Starts(events[1..])
    else Starts(events[1..])
  }

  function Range(lo: nat, hi: nat): seq<nat>
    decreases hi - lo
  {
    if lo >= hi then [] else [lo] + Range(lo + 1, hi)
  }

  lemma {:induction false} StartsConcat(a: seq<Event>, b: seq<Event>)
    ensures Starts(a + b) == Starts(a) + Starts(b)
  {
    if a == [] {
      assert a + b == b;
    } else {
      assert (a + b)[1..] == a[1..] + b;
      StartsConcat(a[1..], b);
    }
  }

  /** Every handler from `i` on starts exactly once, in order. */
  lemma {:induction false} EachStartsOnce(hs: seq<Handler>, i: nat)
    requires NoPanics(hs)
    ensures Starts(Onion(hs, i)) == Range(i, |hs|)
    decreases Left(hs, i), 1, 0
  {
    if i < |hs| {
      var layer := Layer(hs, i, hs[i].acts, false);
      LayerStarts(hs, i, hs[i].acts, false);
      StartsConcat([Start(i)], layer);
      assert Starts([Start(i)]) == [i] by { assert [Start(i)][1..] == []; }
    }
  }

  lemma {:induction false} LayerStarts(hs: seq<Handler>, i: nat, acts: seq<Act>, used: bool)
    requires i < |hs| && NoPanics(hs) && NoPanic(acts)
    ensures Starts(Layer(hs, i, acts, used)) == if used then [] else Range(i + 1, |hs|)
    decreases Left(hs, i), 0, |acts|
  {
    var rest := if used then [] else Onion(hs, i + 1);
    if !used {
      EachStartsOnce(hs, i + 1);
    }
    if acts == [] {
      StartsConcat([Finish(i)], rest);
      assert [Finish(i)][1..] == [];
    } else {
      match acts[0]
      case Emit(what) =>
        LayerStarts(hs, i, acts[1..], used);
        StartsConcat([Did(i, what)], Layer(hs, i, acts[1..], used));
        assert [Did(i, what)][1..] == [];
      case CallNext =>
        LayerStarts(hs, i, acts[1..], true);
        StartsConcat(rest, Layer(hs, i, acts[1..], true));
    }
  }

  /** One past the last handler started when the index stands at `index`. */
  function Reached(hs: seq<Handler>, index: nat): nat {
    if index < |hs| then index + 1 else |hs|
  }

  lemma {:induction false} RangeConcat(lo: nat, mid: nat, hi: nat)
    requires lo <= mid <= hi
    ensures Range(lo, mid) + Range(mid, hi) == Range(lo, hi)
    decreases mid - lo
  {
    if lo < mid {
      RangeConcat(lo + 1, mid, hi);
    }
  }

  /** What starts while the index goes from lo - 1 to a, and then from a to b. */
  lemma ReachedConcat(hs: seq<Handler>, lo: nat, a: nat, b: nat)
    requires lo <= a + 1 && a <= b
    ensures Range(lo, Reached(hs, a)) + Range(a + 1, Reached(hs, b)) == Range(lo, Reached(hs, b))
  {
    if a < |hs| {
      RangeConcat(lo, a + 1, Reached(hs, b));
    }
  }

  lemma StartsOfOne(e: Event, events: seq<Event>)
    ensures Starts([e] + events) == if e.Start? then [e.at] + Starts(events) else Starts(events)
  {
    assert ([e] + events)[1..] == events;
  }

  /** With panics and recovery anywhere, the handlers started are exactly those from `i`
      up to where the index got, each once and in order: none is skipped. */
  lemma {:induction false} StartsContiguous(hs: seq<Handler>, i: nat)
    ensures Starts(Chain(hs, i).events) == Range(i, Reached(hs, Chain(hs, i).index))
    decreases Left(hs, i), 2, 0
  {
    if i < |hs| {
      HandlerContiguous(hs, i);
      var r := RunHandler(hs, i);
      if !r.panicked {
        var c := Chain(hs, r.index + 1);
        StartsContiguous(hs, r.index + 1);
        StartsConcat(r.events, c.events);
        ReachedConcat(hs, i, r.index, c.index);
      }
    }
  }

  lemma {:induction false} HandlerContiguous(hs: seq<Handler>, i: nat)
    requires i < |hs|
    ensures Starts(RunHandler(hs, i).events) == Range(i, Reached(hs, RunHandler(hs, i).index))
    decreases Left(hs, i), 1, 0
  {
    ActsContiguous(hs, i, hs[i].acts, i);
    StartsOfOne(Start(i), RunActs(hs, i, hs[i].acts, i).events);
  }

  lemma {:induction false} ActsContiguous(hs: seq<Handler>, me: nat, acts: seq<Act>, index: nat)
    requires me < |hs| && me <= index
    ensures Starts(RunActs(hs, me, acts, index).events)
         == Range(index + 1, Reached(hs, RunActs(hs, me, acts, index).index))
    decreases Left(hs, me), 0, |acts|, 0
  {
    if acts == [] {
      StartsOfOne(Finish(me), []);
    } else {
      match acts[0]
      case Emit(what) =>
        ActsContiguous(hs, me, acts[1..], index);
        StartsOfOne(Did(me, what), RunActs(hs, me, acts[1..], index).events);
      case Panic =>
      case CallNext =>
        NestedContiguous(hs, me, acts[1..], index);
    }
  }

  lemma {:induction false} NestedContiguous(hs: seq<Handler>, me: nat, rest: seq<Act>, index: nat)
    requires me < |hs| && me <= index
    ensures var c := Chain(hs, index + 1);
            if c.panicked then Starts(c.events) == Range(index + 1, Reached(hs, c.index))
            else var t := RunActs(hs, me, rest, c.index);
                 Starts(c.events + t.events) == Range(index + 1, Reached(hs, t.index))
    decreases Left(hs, me), 0, |rest|, 1
  {
    var c := Chain(hs, index + 1);
    StartsContiguous(hs, index + 1);
    if !c.panicked {
      var t := RunActs(hs, me, rest, c.index);
      ActsContiguous(hs, me, rest, c.index);
      StartsConcat(c.events, t.events);
      ReachedConcat(hs, index + 1, c.index, t.index);
    }
  }

  lemma {:induction false} RangeIncreases(lo: nat, hi: nat, a: nat, b: nat)
    requires a < b < |Range(lo, hi)|
    ensures lo <= Range(lo, hi)[a] < Range(lo, hi)[b]
    decreases hi - lo
  {
    if a > 0 {
      RangeIncreases(lo + 1, hi, a - 1, b - 1);
    } else if b > 1 {
      RangeIncreases(lo + 1, hi, 0, b - 1);
    }
  }

  /** So start positions strictly increase, and no handler is ever started twice. */
  lemma StartsIncrease(hs: seq<Handler>, i: nat, a: nat, b: nat)
    requires a < b < |Starts(Chain(hs, i).events)|
    ensures Starts(Chain(hs, i).events)[a] < Starts(Chain(hs, i).events)[b]
  {
    StartsContiguous(hs, i);
    RangeIncreases(i, Reached(hs, Chain(hs, i).index), a, b);
  }

  // ------------------------------------------------- panics, from the handlers alone

  /** The first act other than Emit is a call of `Next`. */
  predicate CallsFirst(acts: seq<Act>) {
    acts != [] && (acts[0].CallNext? || (acts[0].Emit? && CallsFirst(acts[1..])))
  }

  /** The first act other than Emit is a panic. */
  predicate PanicsFirst(acts: seq<Act>) {
    acts != [] && (acts[0].Panic? || (acts[0].Emit? && PanicsFirst(acts[1..])))
  }

  /** The handler from i on whose panic ends the loop entered at i, or |hs|. A recovering
      handler that calls `Next` absorbs one panic of the handlers behind it; what follows
      the handler that panicked is no longer covered. */
  function Uncaught(hs: seq<Handler>, i: nat): (u: nat)
    ensures u <= |hs| && (i <= |hs| ==> i <= u)
    decreases Left(hs, i)
  {
    if i >= |hs| then |hs|
    else if !hs[i].recovers && PanicsFirst(hs[i].acts) then i
    else if hs[i].recovers && CallsFirst(hs[i].acts) then
      var j := Uncaught(hs, i + 1);
      if j < |hs| then Uncaught(hs, j + 1) else |hs|
    else Uncaught(hs, i + 1)
  }

  /** The acts of handler i panic: at once, inside `Next`, or after it. */
  predicate Raises(hs: seq<Handler>, i: nat)
    requires i < |hs|
    decreases Left(hs, i), 0
  {
    || PanicsFirst(hs[i].acts)
    || (CallsFirst(hs[i].acts) && (Escapes(hs, i + 1) || !NoPanic(hs[i].acts)))
  }

  /** A panic leaves the loop entered at i. */
  predicate Escapes(hs: seq<Handler>, i: nat)
    decreases Left(hs, i), 1
  {
    && i < |hs|
    && if !hs[i].recovers && Raises(hs, i) then true
       else if hs[i].recovers && CallsFirst(hs[i].acts) then
         Uncaught(hs, i + 1) < |hs| && Escapes(hs, Uncaught(hs, i + 1) + 1)
       else Escapes(hs, i + 1)
  }

  /** How far the loop entered at i gets and whether it panics: both are decided by the
      handlers. */
  lemma {:induction false} PanicsIff(hs: seq<Handler>, i: nat)
    ensures Chain(hs, i).panicked <==> Escapes(hs, i)
    ensures if Uncaught(hs, i) < |hs| then Escapes(hs, i) && Chain(hs, i).index == Uncaught(hs, i)
            else Chain(hs, i).index >= |hs|
    decreases Left(hs, i), 1, 0
  {
    if i < |hs| {
      HandlerPanicIff(hs, i);
      var r := RunHandler(hs, i);
      if !r.panicked && r.index < |hs| {
        PanicsIff(hs, r.index + 1);
      }
    }
  }

  /** The same for one handler: a recovering one does not panic, and absorbs what its call
      of `Next` raised. */
  lemma {:induction false} HandlerPanicIff(hs: seq<Handler>, i: nat)
    requires i < |hs|
    ensures var r, acts := RunHandler(hs, i), hs[i].acts;
            && (r.panicked <==> !hs[i].recovers && Raises(hs, i))
            && (if !CallsFirst(acts) then r.index == i
                else if Uncaught(hs, i + 1) < |hs| then r.index == Uncaught(hs, i + 1) && Raises(hs, i)
                else r.index >= |hs|)
            && !(CallsFirst(acts) && PanicsFirst(acts))
    decreases Left(hs, i), 0, |hs[i].acts|, 1
  {
    ActsPanicIff(hs, i, hs[i].acts);
  }

  /** The acts of a handler that has not called `Next` yet. */
  lemma {:induction false} ActsPanicIff(hs: seq<Handler>, me: nat, acts: seq<Act>)
    requires me < |hs|
    ensures !(CallsFirst(acts) && PanicsFirst(acts))
    ensures var r := RunActs(hs, me, acts, me);
            if CallsFirst(acts) then
              && (r.panicked <==> Escapes(hs, me + 1) || !NoPanic(acts))
              && if Uncaught(hs, me + 1) < |hs| then r.panicked && r.index == Uncaught(hs, me + 1)
                 else r.index >= |hs|
            else r.index == me && (r.panicked <==> PanicsFirst(acts))
    decreases Left(hs, me), 0, |acts|, 0
  {
    if acts != [] {
      assert acts == [acts[0]] + acts[1..];
      match acts[0]
      case Emit(what) => ActsPanicIff(hs, me, acts[1..]);
      case Panic =>
      case CallNext =>
        PanicsIff(hs, me + 1);
        var c := Chain(hs, me + 1);
        if !c.panicked {
          ActsAfterNext(hs, me, acts[1..], c.index);
        }
    }
  }

  /** Once `Next` has returned, only a panic of the handler itself is left. */
  lemma {:induction false} ActsAfterNext(hs: seq<Handler>, me: nat, acts: seq<Act>, index: nat)
    requires me < |hs| <= index
    ensures var r := RunActs(hs, me, acts, index);
            r.index >= |hs| && (r.panicked <==> !NoPanic(acts))
    decreases |acts|
  {
    if acts != [] {
      assert acts == [acts[0]] + acts[1..];
      match acts[0]
      case Emit(what) => ActsAfterNext(hs, me, acts[1..], index);
      case Panic =>
      case CallNext => ActsAfterNext(hs, me, acts[1..], index + 1);
    }
  }

  /** Which handlers a request starts: those up to the uncaught panic, each once and in
      order. */
  lemma StartedIs(hs: seq<Handler>, i: nat)
    ensures Starts(Chain(hs, i).events) == Range(i, Reached(hs, Uncaught(hs, i)))
  {
    PanicsIff(hs, i);
    StartsContiguous(hs, i);
  }

  /** A request starts all its handlers if and only if no handler before the last one
      panics uncaught. */
  lemma AllStartedIff(hs: seq<Handler>)
    ensures Starts(Chain(hs, 0).events) == Range(0, |hs|) <==> Uncaught(hs, 0) + 1 >= |hs|
  {
    StartedIs(hs, 0);
    RangeSame(Reached(hs, Uncaught(hs, 0)), |hs|);
  }

  lemma RangeSame(a: nat, b: nat)
    ensures Range(0, a) == Range(0, b) <==> a == b
  {
    RangeLength(0, a);
    RangeLength(0, b);
  }

  lemma {:induction false} RangeLength(lo: nat, hi: nat)
    requires lo <= hi
    ensures |Range(lo, hi)| == hi - lo
    decreases hi - lo
  {
    if lo < hi {
      RangeLength(lo + 1, hi);
    }
  }

  /** A panic under a recovering handler: the chain resumes right behind the handlers
      started so far, that is, behind the one whose panic was absorbed, and is no longer
      covered by the recovery. */
  lemma RecoveryResumesChain(hs: seq<Handler>, i: nat)
    requires i < |hs| && hs[i].recovers && Raises(hs, i)
    ensures var a, all := RunActs(hs, i, hs[i].acts, i), Chain(hs, i);
            var behind := Chain(hs, a.index + 1);
            && a.panicked
            && Reached(hs, a.index) == Reached(hs, if CallsFirst(hs[i].acts) then Uncaught(hs, i + 1) else i)
            && all.events == [Start(i)] + a.events + behind.events
            && Starts([Start(i)] + a.events) == Range(i, Reached(hs, a.index))
            && Starts(behind.events) == Range(a.index + 1, Reached(hs, all.index))
            && all.panicked == behind.panicked
  {
    ActsPanicIff(hs, i, hs[i].acts);
    HandlerContiguous(hs, i);
    StartsContiguous(hs, RunActs(hs, i, hs[i].acts, i).index + 1);
  }

  /** A second panic behind an absorbed one ends the request: with one recovering handler
      in front, handlers 1 and 2 panicking, handler 3 never starts. */
  lemma SecondPanicEndsRequest()
    ensures var hs := [Handler([CallNext], true), Handler([Panic], false), Handler([Panic], false), Handler([], false)];
            Uncaught(hs, 0) == 2 && Starts(Chain(hs, 0).events) == [0, 1, 2]
  {
    var hs := [Handler([CallNext], true), Handler([Panic], false), Handler([Panic], false), Handler([], false)];
    assert Uncaught(hs, 1) == 1 && Uncaught(hs, 2) == 2;
    StartedIs(hs, 0);
    assert Range(1, 3) == [1, 2] by { assert Range(2, 3) == [2] + Range(3, 3); }
  }

  /** For instance, after a recovered panic in handler 1 the loop around the recovering
      handler 0 goes on to start handler 2. */
  lemma RecoveryExample()
    ensures var hs := [Handler([CallNext], true), Handler([Panic], false), Handler([], false)];
            Chain(hs, 0).events == [Start(0), Start(1), Start(2), Finish(2)]
  {
    var hs := [Handler([CallNext], true), Handler([Panic], false), Handler([], false)];
    assert RunHandler(hs, 1) == Result([Start(1)], 1, true);
    assert RunActs(hs, 0, hs[0].acts, 0) == Result([Start(1)], 1, true);
    RecoveryResumesChain(hs, 0);
    assert RunHandler(hs, 2) == Result([Start(2), Finish(2)], 2, false);
    assert Chain(hs, 2).events == [Start(2), Finish(2)];
  }

  // ------------------------------------------------------------ the context

  class Context {
    const handlers: seq<Handler>
    var index: int
    var trace: seq<Event>

    constructor (handlers: seq<Handler>)
      ensures this.handlers == handlers && index == -1 && trace == []
    {
      this.handlers, index, trace := handlers, -1, [];
    }

    method Next() returns (panicked: bool)
      requires index >= -1
      modifies this
      ensures Result(trace, index, panicked) == Chain(handlers, old(index) + 1).After(old(trace))
      decreases Left(handlers, index), 0
    {
      index := index + 1;
      ghost var first := index;
      while index < |handlers|
        invariant index >= first
        invariant Chain(handlers, index).After(trace) == Chain(handlers, first).After(old(trace))
        decreases Left(handlers, index)
      {
        ghost var before, at := trace, index;
        panicked := Call(index);
        if panicked {
          return;
        }
        ghost var more := Chain(handlers, index + 1).events;
        assert before + (RunHandler(handlers, at).events + more)
            == before + RunHandler(handlers, at).events + more;
        index := index + 1;
      }
      assert trace + [] == trace;
      panicked := false;
    }

    /** `c.handlers[c.index](c)` */
    method Call(i: nat) returns (panicked: bool)
      requires i < |handlers| && index == i
      modifies this
      ensures Result(trace, index, panicked) == RunHandler(handlers, i).After(old(trace))
      decreases Left(handlers, i), 2
    {
      trace := trace + [Start(i)];
      panicked := Body(i);
      ghost var all := RunActs(handlers, i, handlers[i].acts, i).events;
      assert old(trace) + ([Start(i)] + all) == old(trace) + [Start(i)] + all;
      if handlers[i].recovers {
        panicked := false;
      }
    }

    /** The acts of a handler, up to its end or a panic. */
    method Body(i: nat) returns (panicked: bool)
      requires i < |handlers| && index == i
      modifies this
      ensures Result(trace, index, panicked) == RunActs(handlers, i, handlers[i].acts, i).After(old(trace))
      decreases Left(handlers, i), 1
    {
      panicked := false;
      var acts := handlers[i].acts;
      ghost var whole := RunActs(handlers, i, acts, i).After(trace);
      var a := 0;
      while a < |acts|
        invariant 0 <= a <= |acts| && index >= i
        invariant RunActs(handlers, i, acts[a..], index).After(trace) == whole
      {
        assert acts[a..][0] == acts[a] && acts[a..][1..] == acts[a + 1..];
        ghost var before := trace;
        match acts[a] {
          case Emit(what) =>
            trace := trace + [Did(i, what)];
            ghost var t := RunActs(handlers, i, acts[a + 1..], index);
            assert before + ([Did(i, what)] + t.events) == before + [Did(i, what)] + t.events;
          case Panic =>
            assert trace + [] == trace;
            return true;
          case CallNext =>
            ghost var c := Chain(handlers, index + 1);
            panicked := Next();
            if panicked {
              return;
            }
            ghost var t := RunActs(handlers, i, acts[a + 1..], index);
            assert before + (c.events + t.events) == before + c.events + t.events;
        }
        a := a + 1;
      }
      assert acts[a..] == [];
      trace := trace + [Finish(i)];
    }
  }
}
