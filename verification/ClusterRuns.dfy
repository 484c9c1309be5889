/** Over whole runs of the cluster: when a request fails, what its answer is otherwise, and
    what each node's cache went through. */
module ClusterRuns {
  import opened Cluster
  import Lru
  import LruTheory

  // -------------------------------------------------------------- what failed

  /** The nodes and keys whose getter has failed in the first n steps. */
  ghost function LoadErrors(cl: Setup, steps: seq<Step>, states: seq<State>, n: nat): set<(string, string)>
    requires |states| == |steps| + 1 && n <= |steps|
  {
    if n == 0 then {} else LoadErrors(cl, steps, states, n - 1) + At(states[n - 1], steps[n - 1], steps[n - 1].LoadError?)
  }

  /** The nodes and keys for which a peer has been asked in vain. */
  ghost function PeerErrors(cl: Setup, steps: seq<Step>, states: seq<State>, n: nat): set<(string, string)>
    requires |states| == |steps| + 1 && n <= |steps|
  {
    if n == 0 then {} else PeerErrors(cl, steps, states, n - 1) + At(states[n - 1], steps[n - 1], steps[n - 1].PeerError?)
  }

  /** The node and key of the step's request, if the step is of the kind. */
  ghost function At(s: State, step: Step, kind: bool): set<(string, string)> {
    if kind && step.id in s.reqs then {(s.reqs[step.id].node, s.reqs[step.id].key)} else {}
  }

  lemma FailedStep(cl: Setup, s: State, step: Step)
    requires Enabled(cl, s, step)
    ensures Next(cl, s, step).failed == s.failed + At(s, step, step.PeerError?)
  {
  }

  /** The pairs recorded as failed are exactly those. */
  lemma {:induction false} FailedIs(cl: Setup, steps: seq<Step>, states: seq<State>, n: nat)
    requires IsRun(cl, steps, states) && n <= |steps|
    ensures states[n].failed == PeerErrors(cl, steps, states, n)
  {
    if n > 0 {
      FailedIs(cl, steps, states, n - 1);
      assert StepAt(cl, steps, states, n - 1);
      FailedStep(cl, states[n - 1], steps[n - 1]);
    }
  }

  /** A request that has failed had the empty key, or its node's getter failed for the key. */
  ghost predicate FailureOk(r: Request, errors: set<(string, string)>) {
    HasAnswer(r.phase) && r.phase.answer.Failed? ==> r.key == "" || (r.node, r.key) in errors
  }

  ghost predicate FailuresOk(s: State, errors: set<(string, string)>) {
    forall id :: id in s.reqs ==> FailureOk(s.reqs[id], errors)
  }

  lemma FailureStep(cl: Setup, s: State, step: Step, errors: set<(string, string)>, id: nat)
    requires FlightsOk(s) && FailuresOk(s, errors) && Enabled(cl, s, step) && id in Next(cl, s, step).reqs
    ensures FailureOk(Next(cl, s, step).reqs[id], errors + At(s, step, step.LoadError?))
  {
    KnownRequests(cl, s, step, id);
    if id in s.reqs {
      assert FailureOk(s.reqs[id], errors) && FlightOk(s, id);
      if step.JoinReturn? && id == step.id {
        assert FailureOk(s.reqs[s.reqs[id].phase.leader], errors);
      }
    }
  }

  /** In every run, whatever the nodes' lists are, a request that fails had the empty key, or
      its node's getter had failed for that key. */
  lemma {:induction false} FailsOnlyIf(cl: Setup, steps: seq<Step>, states: seq<State>, n: nat)
    requires IsRun(cl, steps, states) && n <= |steps|
    ensures FailuresOk(states[n], LoadErrors(cl, steps, states, n))
  {
    if n > 0 {
      FailsOnlyIf(cl, steps, states, n - 1);
      FlightsRun(cl, steps, states, n - 1);
      assert StepAt(cl, steps, states, n - 1);
      var errors := LoadErrors(cl, steps, states, n - 1);
      forall id | id in states[n].reqs ensures FailureOk(states[n].reqs[id], LoadErrors(cl, steps, states, n)) {
        FailureStep(cl, states[n - 1], steps[n - 1], errors, id);
      }
    }
  }

  lemma {:induction false} NoLoadErrors(cl: Setup, steps: seq<Step>, states: seq<State>, n: nat)
    requires |states| == |steps| + 1 && n <= |steps| && forall k :: 0 <= k < n ==> !steps[k].LoadError?
    ensures LoadErrors(cl, steps, states, n) == {}
  {
    if n > 0 {
      NoLoadErrors(cl, steps, states, n - 1);
    }
  }

  /** Every finished request for a non-empty key holds the backing store's value, by hit,
      peer, load or join, unless its node's getter failed for the key; so all of them do in
      a run in which no getter fails. */
  lemma AnswersAreData(cl: Setup, steps: seq<Step>, states: seq<State>, n: nat, id: nat)
    requires Agreed(cl) && IsRun(cl, steps, states) && n <= |steps|
    requires id in states[n].reqs && states[n].reqs[id].phase.Done?
    ensures var r := states[n].reqs[id];
            && (r.phase.answer.Value? ==> r.phase.answer.v == cl.load(r.key))
            && (r.phase.answer.Failed? ==> r.key == "" || (r.node, r.key) in LoadErrors(cl, steps, states, n))
    ensures states[n].reqs[id].key != "" && (forall k :: 0 <= k < n ==> !steps[k].LoadError?) ==>
              states[n].reqs[id].phase.answer == Value(cl.load(states[n].reqs[id].key))
  {
    FailsOnlyIf(cl, steps, states, n);
    RunInv(cl, steps, states, n);
    assert RequestOk(cl, states[n], id) && FailureOk(states[n].reqs[id], LoadErrors(cl, steps, states, n));
    if forall k :: 0 <= k < n ==> !steps[k].LoadError? {
      NoLoadErrors(cl, steps, states, n);
    }
  }

  // --------------------------------------------------------- answers are final

  /** The request has got the answer: stored for the joiners, or returned. */
  ghost predicate Holds(s: State, id: nat, answer: Answer) {
    id in s.reqs && HasAnswer(s.reqs[id].phase) && s.reqs[id].phase.answer == answer
  }

  lemma HoldsStep(cl: Setup, s: State, step: Step, id: nat, answer: Answer)
    requires Enabled(cl, s, step) && Holds(s, id, answer)
    ensures Holds(Next(cl, s, step), id, answer)
  {
    Fixed(cl, s, step, id);
  }

  /** An answer, once there, stays. */
  lemma {:induction false} HoldsOn(cl: Setup, steps: seq<Step>, states: seq<State>, k: nat, n: nat, id: nat,
                                   answer: Answer)
    requires IsRun(cl, steps, states) && k <= n <= |steps| && Holds(states[k], id, answer)
    ensures Holds(states[n], id, answer)
  {
    if k < n {
      HoldsOn(cl, steps, states, k, n - 1, id, answer);
      assert StepAt(cl, steps, states, n - 1);
      HoldsStep(cl, states[n - 1], steps[n - 1], id, answer);
    }
  }

  /** What the step that ends a load gives to its request. */
  lemma LoadGives(cl: Setup, s: State, step: Step)
    requires Enabled(cl, s, step)
    ensures step.LoadError? ==> Holds(Next(cl, s, step), step.id, Failed)
    ensures step.LoadValue? ==> step.id in s.reqs && Holds(Next(cl, s, step), step.id, Value(cl.load(s.reqs[step.id].key)))
    ensures step.PeerValue? ==>
              exists child, a :: Holds(s, child, a) && a.Value? && s.reqs[step.id].phase == Awaiting(child)
                                 && Holds(Next(cl, s, step), step.id, a)
    ensures step.JoinReturn? ==>
              exists leader, a :: Holds(s, leader, a) && s.reqs[step.id].phase == Joined(leader)
                                  && Holds(Next(cl, s, step), step.id, a)
  {
    if step.PeerValue? {
      var child := s.reqs[step.id].phase.child;
      assert Holds(s, child, s.reqs[child].phase.answer);
    } else if step.JoinReturn? {
      var leader := s.reqs[step.id].phase.leader;
      assert Holds(s, leader, s.reqs[leader].phase.answer);
    }
  }

  /** A request whose getter failed has failed for good, and one that joined another's load
      has its answer, in every later state. */
  lemma LoadIsShared(cl: Setup, steps: seq<Step>, states: seq<State>, k: nat, n: nat)
    requires IsRun(cl, steps, states) && k < n <= |steps|
    ensures steps[k].LoadError? ==> Holds(states[n], steps[k].id, Failed)
    ensures steps[k].JoinReturn? ==>
              exists leader, a :: Holds(states[n], leader, a) && Holds(states[n], steps[k].id, a)
                                  && steps[k].id in states[k].reqs && states[k].reqs[steps[k].id].phase == Joined(leader)
  {
    assert StepAt(cl, steps, states, k);
    LoadGives(cl, states[k], steps[k]);
    if steps[k].LoadError? {
      HoldsOn(cl, steps, states, k + 1, n, steps[k].id, Failed);
    } else if steps[k].JoinReturn? {
      var leader, a :| Holds(states[k], leader, a) && states[k].reqs[steps[k].id].phase == Joined(leader)
                       && Holds(states[k + 1], steps[k].id, a);
      HoldsOn(cl, steps, states, k, n, leader, a);
      HoldsOn(cl, steps, states, k + 1, n, steps[k].id, a);
    }
  }

  // ------------------------------------------------------------ requests made

  /** In every run a request is for the node and key it arrived with, and was not
      forwarded. */
  lemma {:induction false} ArrivedAs(cl: Setup, steps: seq<Step>, states: seq<State>, k: nat, n: nat)
    requires IsRun(cl, steps, states) && k < n <= |steps| && steps[k].Arrive?
    ensures steps[k].id in states[n].reqs
    ensures var r := states[n].reqs[steps[k].id]; r.node == steps[k].node && r.key == steps[k].key && r.hops == 0
  {
    assert StepAt(cl, steps, states, n - 1);
    if k < n - 1 {
      ArrivedAs(cl, steps, states, k, n - 1);
      Fixed(cl, states[n - 1], steps[n - 1], steps[k].id);
    }
  }

  /** A request that finds its key cached is done at once with the key's value, asking
      neither a peer nor the getter; one that does not goes on to the load. */
  lemma LookIs(cl: Setup, s: State, id: nat)
    requires Agreed(cl) && Reachable(cl, s) && Enabled(cl, s, Look(id))
    ensures Sane(cl, s, id) && id in Next(cl, s, Look(id)).reqs
    ensures var r, phase := s.reqs[id], Next(cl, s, Look(id)).reqs[id].phase;
            if r.key == "" then phase == Done(Failed)
            else if exists p :: p in s.caches[r.node] && p.key == r.key then phase == Done(Value(cl.load(r.key)))
            else phase == Missed
  {
    ReachableInv(cl, s);
    var r := s.reqs[id];
    var cache := s.caches[r.node];
    CachedIff(cl, r.node, s.failed, cache, r.key);
    LookPhase(cl, s, id);
  }

  lemma LookPhase(cl: Setup, s: State, id: nat)
    requires Enabled(cl, s, Look(id))
    ensures Sane(cl, s, id) && id in Next(cl, s, Look(id)).reqs
    ensures var r, phase := s.reqs[id], Next(cl, s, Look(id)).reqs[id].phase;
            phase == if r.key == "" then Done(Failed)
                     else if r.key in Lru.Keys(s.caches[r.node]) then Done(Value(Lru.Lookup(s.caches[r.node], r.key)))
                     else Missed
  {
  }

  /** A pair for the key is cached, and then the value found for it is the true one. */
  lemma CachedIff(cl: Setup, node: string, failed: set<(string, string)>, cache: seq<Lru.Pair>, key: string)
    requires node in cl.lists && CacheOk(cl, node, failed, cache)
    ensures key in Lru.Keys(cache) <==> exists p :: p in cache && p.key == key
    ensures key in Lru.Keys(cache) ==> Lru.Lookup(cache, key) == cl.load(key)
  {
    if key in Lru.Keys(cache) {
      TouchKeeps(cl, node, failed, cache, key);
      assert cache[Lru.IndexOf(cache, key)] in cache;
    }
  }

  // ------------------------------------------------------------ node caches

  /** What a step does to the cache of a node: a hit reads, a load adds. */
  ghost function StepOps(cl: Setup, s: State, step: Step, node: string): seq<LruTheory.Op> {
    if step.Arrive? || step.id !in s.reqs || s.reqs[step.id].node != node || node !in s.caches then []
    else
      var key := s.reqs[step.id].key;
      if step.Look? && key != "" && key in Lru.Keys(s.caches[node]) then
        [LruTheory.Read(key, Lru.Lookup(s.caches[node], key))]
      else if step.LoadValue? then [LruTheory.Add(key, cl.load(key))]
      else []
  }

  ghost function Ops(cl: Setup, steps: seq<Step>, states: seq<State>, n: nat, node: string): seq<LruTheory.Op>
    requires |states| == |steps| + 1 && n <= |steps|
  {
    if n == 0 then [] else Ops(cl, steps, states, n - 1, node) + StepOps(cl, states[n - 1], steps[n - 1], node)
  }

  lemma OpsStep(cl: Setup, s: State, step: Step, node: string, ops: seq<LruTheory.Op>)
    requires Enabled(cl, s, step) && node in s.caches && s.caches[node] == LruTheory.Run(cl.max, ops)
    ensures node in Next(cl, s, step).caches
    ensures Next(cl, s, step).caches[node] == LruTheory.Run(cl.max, ops + StepOps(cl, s, step, node))
  {
    var more := StepOps(cl, s, step, node);
    if more == [] {
      assert ops + more == ops;
    } else {
      assert (ops + more)[..|ops|] == ops;
    }
  }

  /** In every run each node's cache is that of the cache theory after the node's own hits
      and loads, whatever the other nodes and requests do. */
  lemma {:induction false} CacheIsRun(cl: Setup, steps: seq<Step>, states: seq<State>, n: nat, node: string)
    requires IsRun(cl, steps, states) && n <= |steps| && node in cl.lists
    ensures node in states[n].caches
    ensures states[n].caches[node] == LruTheory.Run(cl.max, Ops(cl, steps, states, n, node))
  {
    if n > 0 {
      CacheIsRun(cl, steps, states, n - 1, node);
      assert StepAt(cl, steps, states, n - 1);
      OpsStep(cl, states[n - 1], steps[n - 1], node, Ops(cl, steps, states, n - 1, node));
    }
  }

  // --------------------------------------------------------------- progress

  /** A step that takes a request on without a failure, except to pass one on. */
  predicate Advances(s: State, step: Step, key: string) {
    && !step.Arrive? && !step.LoadError? && step.id in s.reqs && s.reqs[step.id].key == key
    && (step.PeerError? ==>
          && s.reqs[step.id].phase.Awaiting? && s.reqs[step.id].phase.child in s.reqs
          && s.reqs[s.reqs[step.id].phase.child].phase == Done(Failed))
  }

  lemma {:induction false} FreshId(ids: set<nat>) returns (x: nat)
    ensures x !in ids && forall i :: i in ids ==> i < x
  {
    if ids == {} {
      x := 0;
    } else {
      var i :| i in ids;
      var y := FreshId(ids - {i});
      x := if y <= i then i + 1 else y;
      assert forall j :: j in ids ==> j == i || j in ids - {i};
    }
  }

  /** A request that waits for no other. */
  lemma OwnStep(cl: Setup, s: State, id: nat) returns (step: Step)
    requires Agreed(cl) && Inv(cl, s) && id in s.reqs
    requires !s.reqs[id].phase.Joined? && !s.reqs[id].phase.Awaiting? && !s.reqs[id].phase.Done?
    ensures Enabled(cl, s, step) && Advances(s, step, s.reqs[id].key)
  {
    var r := s.reqs[id];
    assert RequestOk(cl, s, id);
    match r.phase
    case Arrived => step := Look(id);
    case Missed => step := Enter(id);
    case Leading =>
      OwnersAgree(cl, r.node, r.node, r.key);
      if PickAt(cl, r.node, r.key).Some? {
        var child := FreshId(s.reqs.Keys);
        step := Forward(id, child);
      } else {
        step := Stay(id);
      }
    case Local => step := LoadValue(id);
    case Loaded(_) => step := DeleteKey(id);
  }

  /** A request at the owner of its key, where nobody waits for a peer. */
  lemma OwnerStep(cl: Setup, s: State, id: nat) returns (step: Step)
    requires Agreed(cl) && Inv(cl, s) && FlightsOk(s) && id in s.reqs && !s.reqs[id].phase.Done?
    requires s.reqs[id].node in cl.lists && s.reqs[id].node == Home(cl, s.reqs[id].node, s.reqs[id].key)
    ensures Enabled(cl, s, step) && Advances(s, step, s.reqs[id].key)
  {
    assert RequestOk(cl, s, id) && FlightOk(s, id);
    if s.reqs[id].phase.Joined? {
      var leader := s.reqs[id].phase.leader;
      assert RequestOk(cl, s, leader);
      if HasAnswer(s.reqs[leader].phase) {
        step := JoinReturn(id);
      } else {
        step := OwnStep(cl, s, leader);
      }
    } else {
      step := OwnStep(cl, s, id);
    }
  }

  /** A forwarded request is at the owner of the key that was forwarded. */
  lemma ChildIsHome(cl: Setup, s: State, id: nat)
    requires Agreed(cl) && Inv(cl, s) && id in s.reqs && s.reqs[id].phase.Awaiting?
    ensures Sane(cl, s, id) && s.reqs[id].phase.child in s.reqs
    ensures var c := s.reqs[s.reqs[id].phase.child];
            c.key == s.reqs[id].key && c.node in cl.lists && c.node == Home(cl, c.node, c.key)
  {
    assert RequestOk(cl, s, id);
    assert RequestOk(cl, s, s.reqs[id].phase.child);
    OwnersAgree(cl, s.reqs[id].node, s.reqs[s.reqs[id].phase.child].node, s.reqs[id].key);
  }

  lemma AwaitingStep(cl: Setup, s: State, id: nat) returns (step: Step)
    requires Agreed(cl) && Inv(cl, s) && FlightsOk(s) && id in s.reqs && s.reqs[id].phase.Awaiting?
    ensures Enabled(cl, s, step) && Advances(s, step, s.reqs[id].key)
  {
    ChildIsHome(cl, s, id);
    var child := s.reqs[id].phase.child;
    if s.reqs[child].phase.Done? {
      step := if s.reqs[child].phase.answer.Value? then PeerValue(id) else PeerError(id);
      ChildDone(cl, s, id, step);
    } else {
      step := OwnerStep(cl, s, child);
    }
  }

  lemma ChildDone(cl: Setup, s: State, id: nat, step: Step)
    requires Sane(cl, s, id) && s.reqs[id].phase.Awaiting? && s.reqs[id].phase.child in s.reqs
    requires s.reqs[s.reqs[id].phase.child].phase.Done?
    requires step == if s.reqs[s.reqs[id].phase.child].phase.answer.Value? then PeerValue(id) else PeerError(id)
    ensures Enabled(cl, s, step) && Advances(s, step, s.reqs[id].key)
  {
  }

  /** The nodes never wait for one another in a circle: in every reachable state, for every
      request that is not done, some request for its key can take a step, and not by a
      failure of the network or of a getter. */
  lemma NeverStuck(cl: Setup, s: State, id: nat) returns (step: Step)
    requires Agreed(cl) && Reachable(cl, s) && id in s.reqs && !s.reqs[id].phase.Done?
    ensures Enabled(cl, s, step) && Advances(s, step, s.reqs[id].key)
  {
    var steps, states :| IsRun(cl, steps, states) && states[|steps|] == s;
    RunInv(cl, steps, states, |steps|);
    FlightsRun(cl, steps, states, |steps|);
    assert RequestOk(cl, s, id) && FlightOk(s, id);
    match s.reqs[id].phase
    case Joined(leader) =>
      assert RequestOk(cl, s, leader);
      if HasAnswer(s.reqs[leader].phase) {
        step := JoinReturn(id);
      } else if s.reqs[leader].phase.Awaiting? {
        step := AwaitingStep(cl, s, leader);
      } else {
        step := OwnStep(cl, s, leader);
      }
    case Awaiting(_) => step := AwaitingStep(cl, s, id);
    case _ => step := OwnStep(cl, s, id);
  }
}
