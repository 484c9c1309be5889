/** Group.Do of cache/singleflight/singleflight.go as an interleaved protocol.

    Every step is one atomic piece of one goroutine's `Do`: a critical section under
    the mutex, the start or the end of fn, the release of the wait group, or a
    return. A caller is one invocation of `Do`. */
module Singleflight {

  type Key = string

  /** The fields val and err of a call: their zero values, or what fn returned. */
  datatype Outcome = Zero | Out(value: string, err: string)

  /** A call object: its key, the caller that created it, its wait group, val/err. */
  datatype Call = Call(key: Key, leader: nat, wg: nat, outcome: Outcome)

  datatype Stage = Leading | Running | Stored | Released | Deleted

  datatype Phase =
    | Leader(call: nat, stage: Stage)
    | Joiner(call: nat)
    | Returned(call: nat, outcome: Outcome)

  datatype Event =
    | Start(call: nat)
    | End(call: nat, outcome: Outcome)
    | Join(caller: nat, call: nat)
    | Delete(caller: nat, call: nat, removed: set<nat>)
    | Return(caller: nat, call: nat, outcome: Outcome)

  datatype State = State(m: map<Key, nat>, calls: seq<Call>, callers: map<nat, Phase>, trace: seq<Event>)

  datatype Step =
    | Enter(caller: nat, key: Key)       // lock; look up; join, or create and publish; unlock
    | StartFn(caller: nat)
    | EndFn(caller: nat, result: Outcome) // c.val, c.err = fn()
    | Release(caller: nat)               // c.wg.Done()
    | DeleteKey(caller: nat)             // lock; delete(g.m, key); unlock
    | LeaderReturn(caller: nat)
    | JoinerReturn(caller: nat)          // c.wg.Wait(); return c.val, c.err

  const Init := State(map[], [], map[], [])

  predicate At(s: State, t: nat, stage: Stage) {
    t in s.callers && s.callers[t].Leader? && s.callers[t].stage == stage
      && s.callers[t].call < |s.calls|
  }

  predicate Enabled(s: State, step: Step) {
    match step
    case Enter(t, _) => t !in s.callers
    case StartFn(t) => At(s, t, Leading)
    case EndFn(t, result) => At(s, t, Running) && result.Out?
    case Release(t) => At(s, t, Stored)
    case DeleteKey(t) => At(s, t, Released)
    case LeaderReturn(t) => At(s, t, Deleted)
    case JoinerReturn(t) =>
      && t in s.callers && s.callers[t].Joiner? && s.callers[t].call < |s.calls|
      && s.calls[s.callers[t].call].wg == 0
  }

  function Move(s: State, t: nat, p: Phase, e: Event): State {
    s.(callers := s.callers[t := p], trace := s.trace + [e])
  }

  function Do(s: State, step: Step): State
    requires Enabled(s, step)
  {
    match step
    case Enter(t, key) =>
      if key in s.m then Move(s, t, Joiner(s.m[key]), Join(t, s.m[key]))
      else
        var c := |s.calls|;
        s.(calls := s.calls + [Call(key, t, 1, Zero)], m := s.m[key := c],
           callers := s.callers[t := Leader(c, Leading)])
    case StartFn(t) =>
      var c := s.callers[t].call;
      Move(s, t, Leader(c, Running), Start(c))
    case EndFn(t, result) =>
      var c := s.callers[t].call;
      Move(s.(calls := s.calls[c := s.calls[c].(outcome := result)]), t, Leader(c, Stored), End(c, result))
    case Release(t) =>
      var c := s.callers[t].call;
      s.(calls := s.calls[c := s.calls[c].(wg := 0)], callers := s.callers[t := Leader(c, Released)])
    case DeleteKey(t) =>
      var c := s.callers[t].call;
      var key := s.calls[c].key;
      Move(s.(m := s.m - {key}), t, Leader(c, Deleted),
           Delete(t, c, if key in s.m then {s.m[key]} else {}))
    case LeaderReturn(t) =>
      var c := s.callers[t].call;
      Move(s, t, Returned(c, s.calls[c].outcome), Return(t, c, s.calls[c].outcome))
    case JoinerReturn(t) =>
      var c := s.callers[t].call;
      Move(s, t, Returned(c, s.calls[c].outcome), Return(t, c, s.calls[c].outcome))
  }

  ghost predicate IsRun(steps: seq<Step>, states: seq<State>) {
    && |states| == |steps| + 1 && states[0] == Init
    && forall i :: 0 <= i < |steps| ==> Enabled(states[i], steps[i]) && states[i + 1] == Do(states[i], steps[i])
  }

  ghost predicate Reachable(s: State) {
    exists steps, states :: IsRun(steps, states) && states[|steps|] == s
  }

  // ------------------------------------------------------------- invariant

  function Rank(stage: Stage): nat {
    match stage case Leading => 0 case Running => 1 case Stored => 2 case Released => 3 case Deleted => 4
  }

  /** How far the leader of call `c` has come. */
  function Progress(s: State, c: nat): nat {
    if c < |s.calls| && s.calls[c].leader in s.callers then
      match s.callers[s.calls[c].leader]
      case Leader(_, stage) => Rank(stage)
      case Joiner(_) => 0
      case Returned(_, _) => 5
    else 0
  }

  function KeyOf(s: State, c: nat): Key { if c < |s.calls| then s.calls[c].key else "" }

  predicate CallOk(s: State, c: nat)
    requires c < |s.calls|
  {
    var call := s.calls[c];
    && call.leader in s.callers
    && !s.callers[call.leader].Joiner? && s.callers[call.leader].call == c
    && (call.outcome.Zero? <==> Progress(s, c) < 2)
    && (call.wg == 0 <==> Progress(s, c) > 2)
    && (Progress(s, c) <= 3 <==> call.key in s.m && s.m[call.key] == c)
  }

  predicate CallerOk(s: State, t: nat)
    requires t in s.callers
  {
    var p := s.callers[t];
    && p.call < |s.calls|
    && (p.Leader? ==> s.calls[p.call].leader == t)
    && (p.Joiner? ==> s.calls[p.call].leader != t)
    && (p.Returned? ==> p.outcome.Out? && p.outcome == s.calls[p.call].outcome)
  }

  ghost predicate Shape(s: State) {
    && (forall c :: 0 <= c < |s.calls| ==> CallOk(s, c))
    && (forall t :: t in s.callers ==> CallerOk(s, t))
    && (forall k :: k in s.m ==> s.m[k] < |s.calls| && s.calls[s.m[k]].key == k)
  }

  ghost predicate Ended(s: State, c: nat) {
    exists i :: 0 <= i < |s.trace| && s.trace[i].End? && s.trace[i].call == c
  }

  ghost predicate EndsBetween(trace: seq<Event>, c: nat, i: nat, j: nat) {
    exists e :: i < e < j && e < |trace| && trace[e].End? && trace[e].call == c
  }

  /** What each event of the trace says about the present. */
  predicate EventOk(s: State, e: Event) {
    && e.call < |s.calls|
    && match e
       case Start(c) => Progress(s, c) >= 1
       case End(c, o) => Progress(s, c) >= 2 && o == s.calls[c].outcome
       case Join(t, c) => t in s.callers && s.callers[t].call == c
       case Delete(t, c, removed) => Progress(s, c) >= 4 && removed == {c} && s.calls[c].leader == t
       case Return(t, c, o) => t in s.callers && s.callers[t] == Returned(c, o)
  }

  /** How two events, at positions i < j of the trace, may relate. */
  ghost predicate PairOk(s: State, i: nat, j: nat)
    requires i < j < |s.trace|
  {
    var a, b := s.trace[i], s.trace[j];
    && (a.Start? && b.Start? ==> a.call != b.call)
    && (a.Start? && b.Start? && KeyOf(s, a.call) == KeyOf(s, b.call) ==> EndsBetween(s.trace, a.call, i, j))
    && (a.End? && (b.Start? || b.End?) ==> a.call != b.call)
    && (a.Delete? && b.Join? ==> a.call != b.call)
    && (a.Return? && b.Return? ==> a.caller != b.caller)
  }

  ghost predicate Inv(s: State) {
    && Shape(s)
    && (forall i :: 0 <= i < |s.trace| ==> EventOk(s, s.trace[i]))
    && (forall c :: 0 <= c < |s.calls| && Progress(s, c) >= 2 ==> Ended(s, c))
    && (forall i, j :: 0 <= i < j < |s.trace| ==> PairOk(s, i, j))
  }

  lemma CallStep(s: State, step: Step, c: nat)
    requires Shape(s) && Enabled(s, step) && c < |Do(s, step).calls|
    ensures CallOk(Do(s, step), c)
  {
    if c < |s.calls| {
      assert CallOk(s, c);
      assert CallerOk(s, s.calls[c].leader);
    }
    if !step.Enter? {
      assert CallerOk(s, step.caller);
      assert CallOk(s, s.callers[step.caller].call);
    }
  }

  lemma CallerStep(s: State, step: Step, t: nat)
    requires Shape(s) && Enabled(s, step) && t in Do(s, step).callers
    ensures CallerOk(Do(s, step), t)
  {
    if t in s.callers {
      assert CallerOk(s, t);
      assert CallOk(s, s.callers[t].call);
    } else if step.key in s.m {
      assert CallOk(s, s.m[step.key]);
    }
    if !step.Enter? {
      assert CallerOk(s, step.caller);
    }
  }

  lemma ShapeStep(s: State, step: Step)
    requires Shape(s) && Enabled(s, step)
    ensures Shape(Do(s, step))
  {
    var s' := Do(s, step);
    forall c | 0 <= c < |s'.calls| ensures CallOk(s', c) {
      CallStep(s, step, c);
    }
    forall t | t in s'.callers ensures CallerOk(s', t) {
      CallerStep(s, step, t);
    }
    if !step.Enter? {
      assert CallerOk(s, step.caller);
    }
  }

  /** Calls keep their key and leader, only move forward, and once stored keep
      their outcome; returned callers stay returned. */
  lemma Monotone(s: State, step: Step, c: nat)
    requires Shape(s) && Enabled(s, step) && c < |s.calls|
    ensures var s' := Do(s, step);
            && |s.calls| <= |s'.calls| && KeyOf(s', c) == KeyOf(s, c)
            && s'.calls[c].leader == s.calls[c].leader
            && Progress(s', c) >= Progress(s, c)
            && (Progress(s, c) >= 2 ==> s'.calls[c].outcome == s.calls[c].outcome)
  {
    assert CallOk(s, c);
    assert CallerOk(s, s.calls[c].leader);
    if !step.Enter? {
      assert CallerOk(s, step.caller);
    }
  }

  lemma OldEvent(s: State, step: Step, e: Event)
    requires Shape(s) && Enabled(s, step) && EventOk(s, e)
    ensures EventOk(Do(s, step), e)
  {
    Monotone(s, step, e.call);
  }

  /** Events only get appended, at most one per step. */
  lemma TraceGrows(s: State, step: Step)
    requires Enabled(s, step)
    ensures s.trace <= Do(s, step).trace && |Do(s, step).trace| <= |s.trace| + 1
  {
  }

  lemma OldPair(s: State, step: Step, i: nat, j: nat)
    requires Inv(s) && Enabled(s, step) && i < j < |s.trace|
    ensures i < j < |Do(s, step).trace| && PairOk(Do(s, step), i, j)
  {
    var s' := Do(s, step);
    TraceGrows(s, step);
    assert PairOk(s, i, j);
    assert EventOk(s, s.trace[i]) && EventOk(s, s.trace[j]);
    var a, b := s.trace[i], s.trace[j];
    assert s'.trace[i] == a && s'.trace[j] == b;
    Monotone(s, step, a.call);
    Monotone(s, step, b.call);
    if EndsBetween(s.trace, a.call, i, j) {
      var e :| i < e < j && e < |s.trace| && s.trace[e].End? && s.trace[e].call == a.call;
      assert s'.trace[e] == s.trace[e];
    }
  }

  /** Two calls for one key are never active together. */
  lemma OneActivePerKey(s: State, c: nat, d: nat)
    requires Shape(s) && c < |s.calls| && d < |s.calls| && KeyOf(s, c) == KeyOf(s, d)
    requires Progress(s, c) <= 3 && Progress(s, d) <= 3
    ensures c == d
  {
    assert CallOk(s, c) && CallOk(s, d);
  }

  lemma NewPair(s: State, step: Step, i: nat)
    requires Inv(s) && Enabled(s, step) && i < |s.trace| < |Do(s, step).trace|
    ensures PairOk(Do(s, step), i, |s.trace|)
  {
    var s', n := Do(s, step), |s.trace|;
    var a, b := s.trace[i], s'.trace[n];
    assert s'.trace[i] == a && EventOk(s, a);
    Monotone(s, step, a.call);
    if step.Enter? {
      assert CallOk(s, b.call);
      assert CallOk(s, a.call);
    } else {
      assert CallerOk(s, step.caller) && CallOk(s, b.call);
      assert b.call == s.callers[step.caller].call;
      Monotone(s, step, b.call);
    }
    if a.Start? && b.Start? && a.call != b.call && KeyOf(s', a.call) == KeyOf(s', b.call) {
      if Progress(s, a.call) <= 3 {
        OneActivePerKey(s, a.call, b.call);
      }
      assert Ended(s, a.call);
      var e: nat :| e < n && s.trace[e].End? && s.trace[e].call == a.call;
      assert e < i ==> PairOk(s, e, i);
      assert i < e;
      assert s'.trace[e] == s.trace[e];
    }
  }

  lemma EndedStep(s: State, step: Step, c: nat)
    requires Inv(s) && Enabled(s, step) && Shape(Do(s, step))
    requires c < |Do(s, step).calls| && Progress(Do(s, step), c) >= 2
    ensures Ended(Do(s, step), c)
  {
    var s' := Do(s, step);
    TraceGrows(s, step);
    assert CallOk(s', c);
    if c < |s.calls| && Progress(s, c) >= 2 {
      var e :| 0 <= e < |s.trace| && s.trace[e].End? && s.trace[e].call == c;
      assert s'.trace[e] == s.trace[e];
    } else {
      if c < |s.calls| {
        assert CallOk(s, c);
      }
      assert step.EndFn?;
      assert s'.trace[|s.trace|] == End(c, step.result);
    }
  }

  lemma NewEvent(s: State, step: Step)
    requires Inv(s) && Enabled(s, step) && |s.trace| < |Do(s, step).trace|
    ensures EventOk(Do(s, step), Do(s, step).trace[|s.trace|])
  {
    if step.Enter? {
      assert CallOk(s, s.m[step.key]);
    } else {
      assert CallerOk(s, step.caller);
      assert CallOk(s, s.callers[step.caller].call);
    }
  }

  lemma InvStep(s: State, step: Step)
    requires Inv(s) && Enabled(s, step)
    ensures Inv(Do(s, step))
  {
    var s' := Do(s, step);
    ShapeStep(s, step);
    TraceGrows(s, step);
    forall i | 0 <= i < |s'.trace| ensures EventOk(s', s'.trace[i]) {
      if i < |s.trace| {
        assert EventOk(s, s.trace[i]);
        OldEvent(s, step, s.trace[i]);
      } else {
        NewEvent(s, step);
      }
    }
    forall c | 0 <= c < |s'.calls| && Progress(s', c) >= 2 ensures Ended(s', c) {
      EndedStep(s, step, c);
    }
    forall i, j | 0 <= i < j < |s'.trace| ensures PairOk(s', i, j) {
      if j < |s.trace| {
        OldPair(s, step, i, j);
      } else {
        NewPair(s, step, i);
      }
    }
  }

  lemma {:induction false} RunInv(steps: seq<Step>, states: seq<State>, n: nat)
    requires IsRun(steps, states) && n <= |steps|
    ensures Inv(states[n])
  {
    if n > 0 {
      RunInv(steps, states, n - 1);
      InvStep(states[n - 1], steps[n - 1]);
    }
  }

  lemma InitReachable()
    ensures Reachable(Init)
  {
    assert IsRun([], [Init]);
  }

  lemma ReachableStep(s: State, step: Step)
    requires Reachable(s) && Enabled(s, step)
    ensures Reachable(Do(s, step))
  {
    var steps, states :| IsRun(steps, states) && states[|steps|] == s;
    assert IsRun(steps + [step], states + [Do(s, step)]);
  }

  // ------------------------------------------------------------- main results

  /** Executions of fn for one key never overlap: between the starts of two calls for
      the same key, the first one's execution has ended. Each call runs fn once. */
  lemma NoOverlap(s: State, i: nat, j: nat)
    requires Reachable(s) && i < j < |s.trace| && s.trace[i].Start? && s.trace[j].Start?
    ensures s.trace[i].call != s.trace[j].call
    ensures KeyOf(s, s.trace[i].call) == KeyOf(s, s.trace[j].call) ==>
              EndsBetween(s.trace, s.trace[i].call, i, j)
  {
    var steps, states :| IsRun(steps, states) && states[|steps|] == s;
    RunInv(steps, states, |steps|);
    assert PairOk(s, i, j);
  }

  /** A leader's delete removes its own entry and never another call's. */
  lemma DeletesOwnEntry(s: State, i: nat)
    requires Reachable(s) && i < |s.trace| && s.trace[i].Delete?
    ensures s.trace[i].removed == {s.trace[i].call}
    ensures s.trace[i].call < |s.calls| && s.calls[s.trace[i].call].leader == s.trace[i].caller
  {
    var steps, states :| IsRun(steps, states) && states[|steps|] == s;
    RunInv(steps, states, |steps|);
    assert EventOk(s, s.trace[i]);
  }

  /** Whoever returns from call c, leader or joiner, returns exactly what the single
      execution of c produced. */
  lemma ReturnsTheExecution(s: State, i: nat)
    requires Reachable(s) && i < |s.trace| && s.trace[i].Return?
    ensures exists e :: 0 <= e < |s.trace| && s.trace[e] == End(s.trace[i].call, s.trace[i].outcome)
    ensures forall e :: 0 <= e < |s.trace| && s.trace[e].End? && s.trace[e].call == s.trace[i].call ==>
              s.trace[e].outcome == s.trace[i].outcome
  {
    var steps, states :| IsRun(steps, states) && states[|steps|] == s;
    RunInv(steps, states, |steps|);
    assert EventOk(s, s.trace[i]);
    var t, c := s.trace[i].caller, s.trace[i].call;
    assert CallerOk(s, t) && CallOk(s, c);
    var e :| 0 <= e < |s.trace| && s.trace[e].End? && s.trace[e].call == c;
    assert EventOk(s, s.trace[e]);
    forall e | 0 <= e < |s.trace| && s.trace[e].End? && s.trace[e].call == c
      ensures s.trace[e].outcome == s.trace[i].outcome
    {
      assert EventOk(s, s.trace[e]);
    }
  }

  /** A caller never joins a call whose entry has been deleted. */
  lemma NoJoinAfterDelete(s: State, i: nat, j: nat)
    requires Reachable(s) && i < j < |s.trace| && s.trace[i].Delete? && s.trace[j].Join?
    ensures s.trace[i].call != s.trace[j].call
  {
    var steps, states :| IsRun(steps, states) && states[|steps|] == s;
    RunInv(steps, states, |steps|);
    assert PairOk(s, i, j);
  }

  // ------------------------------------- what a caller gets for the key it asked for

  /** A call for the key whose entry has not been deleted. */
  ghost predicate InFlight(s: State, c: nat, key: Key) {
    c < |s.calls| && s.calls[c].key == key && Progress(s, c) <= 3
  }

  /** Do(key) joins if and only if a call for that very key is in flight, and then that
      call; otherwise it creates one for the key and leads it. */
  lemma EnterJoinsIff(s: State, t: nat, key: Key)
    requires Reachable(s) && Enabled(s, Enter(t, key))
    ensures t in Do(s, Enter(t, key)).callers
    ensures forall c :: InFlight(s, c, key) ==>
              Do(s, Enter(t, key)).callers[t] == Joiner(c) && Do(s, Enter(t, key)).calls == s.calls
    ensures (forall c :: !InFlight(s, c, key)) ==>
              && Do(s, Enter(t, key)).callers[t] == Leader(|s.calls|, Leading)
              && Do(s, Enter(t, key)).calls == s.calls + [Call(key, t, 1, Zero)]
  {
    var steps, states :| IsRun(steps, states) && states[|steps|] == s;
    RunInv(steps, states, |steps|);
    forall c | InFlight(s, c, key) ensures key in s.m && s.m[key] == c {
      assert CallOk(s, c);
    }
    if key in s.m {
      assert CallOk(s, s.m[key]);
      assert InFlight(s, s.m[key], key);
    }
  }

  /** A caller's call, and the call's key and leader, never change. */
  lemma KeepsCall(s: State, step: Step, t: nat)
    requires Shape(s) && Enabled(s, step) && t in s.callers
    ensures var d, c := Do(s, step), s.callers[t].call;
            && t in d.callers && d.callers[t].call == c && c < |s.calls| <= |d.calls|
            && d.calls[c].key == s.calls[c].key && d.calls[c].leader == s.calls[c].leader
  {
    assert CallerOk(s, t);
    Monotone(s, step, s.callers[t].call);
  }

  lemma EnterAsks(s: State, t: nat, key: Key)
    requires Shape(s) && Enabled(s, Enter(t, key))
    ensures var d := Do(s, Enter(t, key));
            t in d.callers && d.callers[t].call < |d.calls| && d.calls[d.callers[t].call].key == key
  {
  }

  /** Whoever called Do(key) leads or has joined a call for that key, ever after. */
  lemma {:induction false} AskedFor(steps: seq<Step>, states: seq<State>, i: nat, n: nat, t: nat, key: Key)
    requires IsRun(steps, states) && i < n <= |steps| && steps[i] == Enter(t, key)
    ensures t in states[n].callers && states[n].callers[t].call < |states[n].calls|
    ensures states[n].calls[states[n].callers[t].call].key == key
  {
    RunInv(steps, states, n - 1);
    if n == i + 1 {
      EnterAsks(states[i], t, key);
    } else {
      AskedFor(steps, states, i, n - 1, t, key);
      KeepsCall(states[n - 1], steps[n - 1], t);
    }
  }

  /** And so do the events that speak of it. */
  lemma EventsAskedFor(steps: seq<Step>, states: seq<State>, i: nat, n: nat, t: nat, key: Key, e: nat)
    requires IsRun(steps, states) && i < n <= |steps| && steps[i] == Enter(t, key)
    requires e < |states[n].trace|
    requires (states[n].trace[e].Join? || states[n].trace[e].Return?) && states[n].trace[e].caller == t
    ensures KeyOf(states[n], states[n].trace[e].call) == key
  {
    AskedFor(steps, states, i, n, t, key);
    RunInv(steps, states, n);
    assert EventOk(states[n], states[n].trace[e]);
  }

  /** Only entering creates a call. */
  lemma NewCall(s: State, step: Step, c: nat)
    requires Shape(s) && Enabled(s, step) && |s.calls| <= c < |Do(s, step).calls|
    ensures step == Enter(Do(s, step).calls[c].leader, Do(s, step).calls[c].key)
  {
  }

  /** A call's leader called Do for the call's key. */
  lemma {:induction false} LeaderAsked(steps: seq<Step>, states: seq<State>, n: nat, c: nat) returns (a: nat)
    requires IsRun(steps, states) && n <= |steps| && c < |states[n].calls|
    ensures a < n && steps[a] == Enter(states[n].calls[c].leader, states[n].calls[c].key)
  {
    RunInv(steps, states, n - 1);
    var s, step := states[n - 1], steps[n - 1];
    if c < |s.calls| {
      a := LeaderAsked(steps, states, n - 1, c);
      Monotone(s, step, c);
    } else {
      NewCall(s, step, c);
      a := n - 1;
    }
  }

  /** Only the end of the leader's fn stores an outcome, the one that fn returned. */
  lemma OutcomeStep(s: State, step: Step, c: nat)
    requires Shape(s) && Enabled(s, step) && c < |s.calls| && c < |Do(s, step).calls|
    requires Do(s, step).calls[c].outcome != s.calls[c].outcome
    ensures step == EndFn(s.calls[c].leader, Do(s, step).calls[c].outcome)
  {
    if !step.Enter? {
      assert CallerOk(s, step.caller);
    }
  }

  lemma {:induction false} OutcomeOf(steps: seq<Step>, states: seq<State>, n: nat, c: nat) returns (b: nat)
    requires IsRun(steps, states) && n <= |steps| && c < |states[n].calls| && states[n].calls[c].outcome.Out?
    ensures b < n && steps[b] == EndFn(states[n].calls[c].leader, states[n].calls[c].outcome)
  {
    RunInv(steps, states, n - 1);
    var s, step := states[n - 1], steps[n - 1];
    assert c < |s.calls|;
    Monotone(s, step, c);
    if states[n].calls[c].outcome == s.calls[c].outcome {
      b := OutcomeOf(steps, states, n - 1, c);
    } else {
      OutcomeStep(s, step, c);
      b := n - 1;
    }
  }

  /** The whole of Do: a caller that asked for a key and has returned holds exactly what
      fn returned to the leader of its call, and that leader asked for the same key. */
  lemma DoReturns(steps: seq<Step>, states: seq<State>, i: nat, n: nat, t: nat, key: Key)
    returns (leader: nat, a: nat, b: nat)
    requires IsRun(steps, states) && i < n <= |steps| && steps[i] == Enter(t, key)
    requires t in states[n].callers && states[n].callers[t].Returned?
    ensures a < n && steps[a] == Enter(leader, key)
    ensures b < n && steps[b] == EndFn(leader, states[n].callers[t].outcome)
  {
    var s, c := states[n], states[n].callers[t].call;
    RunInv(steps, states, n);
    assert CallerOk(s, t);
    AskedFor(steps, states, i, n, t, key);
    leader := s.calls[c].leader;
    a := LeaderAsked(steps, states, n, c);
    b := OutcomeOf(steps, states, n, c);
  }

  /** Nobody waits for ever: every caller that has not returned can take a step, or has
      joined a call whose leader can. */
  lemma NeverStuck(s: State, t: nat, result: Outcome) returns (step: Step)
    requires Reachable(s) && t in s.callers && !s.callers[t].Returned? && result.Out?
    ensures Enabled(s, step) && !step.Enter?
    ensures step.caller == t || (s.callers[t].Joiner? && s.callers[t].call < |s.calls|
                                 && step.caller == s.calls[s.callers[t].call].leader)
  {
    var steps, states :| IsRun(steps, states) && states[|steps|] == s;
    RunInv(steps, states, |steps|);
    var c := s.callers[t].call;
    assert CallerOk(s, t) && CallOk(s, c);
    if s.callers[t].Leader? {
      step := LeaderStep(s, t, result);
    } else if s.calls[c].wg == 0 {
      step := JoinerReturn(t);
    } else {
      step := LeaderStep(s, s.calls[c].leader, result);
    }
  }

  lemma LeaderStep(s: State, t: nat, result: Outcome) returns (step: Step)
    requires Shape(s) && t in s.callers && s.callers[t].Leader? && result.Out?
    ensures Enabled(s, step) && !step.Enter? && step.caller == t
  {
    assert CallerOk(s, t);
    match s.callers[t].stage
    case Leading => step := StartFn(t);
    case Running => step := EndFn(t, result);
    case Stored => step := Release(t);
    case Released => step := DeleteKey(t);
    case Deleted => step := LeaderReturn(t);
  }

  /** Caller 0 has executed fn and released the wait group, but not deleted the entry. */
  lemma ReleasedIsReachable(key: Key, result: Outcome) returns (s: State)
    requires result.Out?
    ensures Reachable(s) && s.trace == [Start(0), End(0, result)]
    ensures s.m == map[key := 0] && s.callers.Keys == {0}
  {
    InitReachable();
    var s1 := Do(Init, Enter(0, key));
    ReachableStep(Init, Enter(0, key));
    var s2 := Do(s1, StartFn(0));
    ReachableStep(s1, StartFn(0));
    var s3 := Do(s2, EndFn(0, result));
    ReachableStep(s2, EndFn(0, result));
    s := Do(s3, Release(0));
    ReachableStep(s3, Release(0));
  }

  /** But it may join one whose execution is already over: the wait group is released
      before the entry is deleted. */
  lemma LateJoinHappens(key: Key, result: Outcome)
    requires result.Out?
    ensures exists s :: Reachable(s) && s.trace == [Start(0), End(0, result), Join(1, 0)]
  {
    var s := ReleasedIsReachable(key, result);
    ReachableStep(s, Enter(1, key));
    assert Do(s, Enter(1, key)).trace == [Start(0), End(0, result), Join(1, 0)];
  }
}
