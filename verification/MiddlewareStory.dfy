/** The whole trace of a request, with panics and recovery anywhere, told from the handlers
    without the shared index. */
module MiddlewareStory {
  import opened Middleware

  /** What happens when the handlers from i on are run, panics included, told without the
      shared index. */
  function Story(hs: seq<Handler>, i: nat): seq<Event>
    decreases Left(hs, i), 1, 0
  {
    if i >= |hs| then [] else [Start(i)] + Tale(hs, i, hs[i].acts)
  }

  /** The acts of handler i before it has called `Next`, and what comes after it. When its
      call of `Next` panics the handler is cut off there; if it recovers, the handlers
      behind the one that panicked follow. */
  function Tale(hs: seq<Handler>, i: nat, acts: seq<Act>): seq<Event>
    requires i < |hs|
    decreases Left(hs, i), 0, |acts|
  {
    if acts == [] then [Finish(i)] + Story(hs, i + 1)
    else
      match acts[0]
      case Emit(what) => [Did(i, what)] + Tale(hs, i, acts[1..])
      case Panic => if hs[i].recovers then Story(hs, i + 1) else []
      case CallNext => Story(hs, i + 1) + Aftermath(hs, i, acts[1..])
  }

  /** What follows handler i's first call of `Next`. */
  function Aftermath(hs: seq<Handler>, i: nat, rest: seq<Act>): seq<Event>
    requires i < |hs|
    decreases Left(hs, i), 0, |rest|
  {
    if !Escapes(hs, i + 1) then Tail(i, rest)
    else if hs[i].recovers then Story(hs, Uncaught(hs, i + 1) + 1)
    else []
  }

  /** The acts of handler i once everything behind it has run: more calls of `Next` do
      nothing. */
  function Tail(i: nat, acts: seq<Act>): seq<Event> {
    if acts == [] then [Finish(i)]
    else
      match acts[0]
      case Emit(what) => [Did(i, what)] + Tail(i, acts[1..])
      case CallNext => Tail(i, acts[1..])
      case Panic => []
  }

  /** What the loop around a handler goes on with after the handler's result, if `after` is
      what the handlers behind it do. */
  function Onward(recovers: bool, r: Result, after: seq<Event>): seq<Event> {
    if r.panicked && !recovers then [] else after
  }

  /** A result of the acts of handler i, and what goes on after it, are as told. */
  ghost predicate AsTold(hs: seq<Handler>, i: nat, acts: seq<Act>, r: Result)
    requires i < |hs|
  {
    r.index >= i && r.events + Onward(hs[i].recovers, r, Story(hs, r.index + 1)) == Tale(hs, i, acts)
  }

  /** The shared-index runner has that trace, for all handlers, whatever panics and
      recovers: every Start, Did and Finish is fixed. */
  lemma {:induction false} ChainIsStory(hs: seq<Handler>, i: nat)
    ensures Chain(hs, i).events == Story(hs, i)
    decreases Left(hs, i), 1, 0
  {
    if i < |hs| {
      var a := RunActs(hs, i, hs[i].acts, i);
      ActsAreTale(hs, i, hs[i].acts);
      if !a.panicked || hs[i].recovers {
        ChainIsStory(hs, a.index + 1);
      }
      LoopIs(hs, i, a);
    }
  }

  /** One round of the loop. */
  lemma LoopIs(hs: seq<Handler>, i: nat, a: Result)
    requires i < |hs| && a == RunActs(hs, i, hs[i].acts, i) && AsTold(hs, i, hs[i].acts, a)
    requires !a.panicked || hs[i].recovers ==> Chain(hs, a.index + 1).events == Story(hs, a.index + 1)
    ensures Chain(hs, i).events == Story(hs, i)
  {
    var after := Onward(hs[i].recovers, a, Story(hs, a.index + 1));
    Round(hs, i);
    StoryAt(hs, i);
    Associative([Start(i)], a.events, after);
  }

  lemma Round(hs: seq<Handler>, i: nat)
    requires i < |hs|
    ensures var a := RunActs(hs, i, hs[i].acts, i);
            Chain(hs, i).events == [Start(i)] + a.events + Onward(hs[i].recovers, a, Chain(hs, a.index + 1).events)
  {
    NothingBefore([Start(i)] + RunActs(hs, i, hs[i].acts, i).events);
  }

  lemma StoryAt(hs: seq<Handler>, i: nat)
    requires i < |hs|
    ensures Story(hs, i) == [Start(i)] + Tale(hs, i, hs[i].acts)
  {
  }

  lemma {:induction false} ActsAreTale(hs: seq<Handler>, i: nat, acts: seq<Act>)
    requires i < |hs|
    ensures AsTold(hs, i, acts, RunActs(hs, i, acts, i))
    decreases Left(hs, i), 0, |acts|, 1
  {
    if acts == [] || acts[0].Panic? {
      LastActIsTale(hs, i, acts);
    } else if acts[0].Emit? {
      ActsAreTale(hs, i, acts[1..]);
      EmitIsTale(hs, i, acts);
    } else {
      NextIsTale(hs, i, acts);
    }
  }

  lemma NothingBefore(events: seq<Event>)
    ensures [] + events == events && events + [] == events
  {
  }

  lemma LastActIsTale(hs: seq<Handler>, i: nat, acts: seq<Act>)
    requires i < |hs| && (acts == [] || acts[0].Panic?)
    ensures AsTold(hs, i, acts, RunActs(hs, i, acts, i))
  {
    NothingBefore(Onward(hs[i].recovers, RunActs(hs, i, acts, i), Story(hs, i + 1)));
  }

  lemma EmitIsTale(hs: seq<Handler>, i: nat, acts: seq<Act>)
    requires i < |hs| && acts != [] && acts[0].Emit? && AsTold(hs, i, acts[1..], RunActs(hs, i, acts[1..], i))
    ensures AsTold(hs, i, acts, RunActs(hs, i, acts, i))
  {
    var t := RunActs(hs, i, acts[1..], i);
    assert RunActs(hs, i, acts, i) == t.After([Did(i, acts[0].what)]);
    Associative([Did(i, acts[0].what)], t.events, Onward(hs[i].recovers, t, Story(hs, t.index + 1)));
  }

  lemma RunNext(hs: seq<Handler>, i: nat, acts: seq<Act>)
    requires i < |hs| && acts != [] && acts[0].CallNext?
    ensures var r, c := RunActs(hs, i, acts, i), Chain(hs, i + 1);
            r == if c.panicked then c else RunActs(hs, i, acts[1..], c.index).After(c.events)
  {
  }

  lemma TellNext(hs: seq<Handler>, i: nat, acts: seq<Act>)
    requires i < |hs| && acts != [] && acts[0].CallNext?
    ensures Tale(hs, i, acts) == Story(hs, i + 1) + Aftermath(hs, i, acts[1..])
  {
  }

  /** Where the story goes on after a loop that panicked. */
  lemma Resumes(hs: seq<Handler>, i: nat)
    ensures Chain(hs, i).panicked <==> Escapes(hs, i)
    ensures Story(hs, Chain(hs, i).index + 1) == Story(hs, Uncaught(hs, i) + 1)
  {
    PanicsIff(hs, i);
  }

  lemma StoryEnds(hs: seq<Handler>, i: nat)
    requires i >= |hs|
    ensures Story(hs, i) == []
  {
  }

  /** The first call of `Next`. */
  lemma {:induction false} NextIsTale(hs: seq<Handler>, i: nat, acts: seq<Act>)
    requires i < |hs| && acts != [] && acts[0].CallNext?
    ensures AsTold(hs, i, acts, RunActs(hs, i, acts, i))
    decreases Left(hs, i), 0, |acts|, 0
  {
    var c, rest := Chain(hs, i + 1), acts[1..];
    ChainIsStory(hs, i + 1);
    RunNext(hs, i, acts);
    TellNext(hs, i, acts);
    Resumes(hs, i + 1);
    AftermathIs(hs, i, rest);
    if c.panicked {
      Spliced(hs[i].recovers, c, Story(hs, c.index + 1), Aftermath(hs, i, rest));
    } else {
      TailIs(hs, i, rest, c.index);
      var t := RunActs(hs, i, rest, c.index);
      StoryEnds(hs, t.index + 1);
      assert RunActs(hs, i, acts, i) == t.After(c.events);
      NothingBefore(c.events + t.events);
    }
  }

  lemma Spliced(recovers: bool, c: Result, after: seq<Event>, aftermath: seq<Event>)
    requires c.panicked && aftermath == if recovers then after else []
    ensures c.events + Onward(recovers, c, after) == c.events + aftermath
  {
  }

  lemma AftermathIs(hs: seq<Handler>, i: nat, rest: seq<Act>)
    requires i < |hs|
    ensures !Escapes(hs, i + 1) ==> Aftermath(hs, i, rest) == Tail(i, rest)
    ensures Escapes(hs, i + 1) && hs[i].recovers ==> Aftermath(hs, i, rest) == Story(hs, Uncaught(hs, i + 1) + 1)
    ensures Escapes(hs, i + 1) && !hs[i].recovers ==> Aftermath(hs, i, rest) == []
  {
  }

  lemma {:induction false} TailIs(hs: seq<Handler>, i: nat, acts: seq<Act>, index: nat)
    requires i < |hs| <= index
    ensures RunActs(hs, i, acts, index).events == Tail(i, acts)
    ensures RunActs(hs, i, acts, index).index >= |hs|
    decreases |acts|
  {
    if acts != [] {
      match acts[0]
      case Emit(what) => TailIs(hs, i, acts[1..], index);
      case Panic =>
      case CallNext =>
        var c := Chain(hs, index + 1);
        TailIs(hs, i, acts[1..], index + 1);
        assert c == Result([], index + 1, false);
        var t := RunActs(hs, i, acts[1..], index + 1);
        assert c.events + t.events == t.events;
    }
  }
}
