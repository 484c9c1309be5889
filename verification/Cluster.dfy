/** Several nodes of cache/geecache.go, each with its own pool and LRU cache, serving
    requests concurrently, with cache/singleflight/singleflight.go between a miss and a
    load. A request is `Group.Get` on one node; a forwarded request is the `Group.Get`
    that the peer's HTTP handler runs for it. */
module Cluster {
  import opened Wrappers
  import opened Ring
  import opened Pool
  import Lru
  import LruTheory

  /** Fixed for a run: ring parameters, byte bound, each node's list of peers as given
      to Set, and the data behind the getters. */
  datatype Setup = Setup(config: Config, max: nat, lists: map<string, seq<string>>, load: string -> Lru.Value)

  datatype Answer = Value(v: Lru.Value) | Failed

  /** Progress of Group.Get: before the lookup; missed; in Do, waiting for the request that
      leads the call, or leading it; as leader waiting for the peer's answer, or loading
      locally, or with the outcome stored and the wait group released; returned. */
  datatype Phase =
    | Arrived
    | Missed
    | Joined(leader: nat)
    | Leading
    | Awaiting(child: nat)
    | Local
    | Loaded(answer: Answer)
    | Done(answer: Answer)

  datatype Request = Request(node: string, key: string, hops: nat, phase: Phase)

  /** `flights` are the call maps of the nodes' loaders, by node and key; `failed` records
      the node and key of every forwarded request that came back without a value. */
  datatype State = State(caches: map<string, seq<Lru.Pair>>, reqs: map<nat, Request>,
                         flights: map<(string, string), nat>, failed: set<(string, string)>)

  datatype Step =
    | Arrive(id: nat, node: string, key: string)
    | Look(id: nat)                // key == "", or mainCache.get
    | Enter(id: nat)               // Do: join the call for the key, or lead a new one
    | Forward(id: nat, child: nat) // PickPeer chose a peer
    | Stay(id: nat)                // PickPeer chose none
    | PeerValue(id: nat)
    | PeerError(id: nat)           // an error from the peer or from the network
    | LoadValue(id: nat)           // getter.Get succeeded; mainCache.add
    | LoadError(id: nat)
    | DeleteKey(id: nat)           // the leader deletes the call's entry and returns
    | JoinReturn(id: nat)          // the wait group was released

  predicate Sane(cl: Setup, s: State, id: nat) {
    id in s.reqs && s.reqs[id].node in cl.lists && s.reqs[id].node in s.caches
  }

  ghost function PickAt(cl: Setup, node: string, key: string): Option<string>
    requires node in cl.lists
  {
    Pick(cl.config, node, cl.lists[node], key)
  }

  predicate HasAnswer(p: Phase) { p.Loaded? || p.Done? }

  ghost predicate Enabled(cl: Setup, s: State, step: Step) {
    if step.Arrive? then step.id !in s.reqs && step.node in cl.lists && step.node in s.caches
    else
      && Sane(cl, s, step.id)
      && var r := s.reqs[step.id];
         match step
         case Look(_) => r.phase.Arrived?
         case Enter(_) => r.phase.Missed?
         case Forward(_, child) =>
           && r.phase.Leading? && child !in s.reqs && PickAt(cl, r.node, r.key).Some?
           && PickAt(cl, r.node, r.key).value in cl.lists && PickAt(cl, r.node, r.key).value in s.caches
         case Stay(_) => r.phase.Leading? && PickAt(cl, r.node, r.key).None?
         case PeerValue(_) =>
           r.phase.Awaiting? && r.phase.child in s.reqs && s.reqs[r.phase.child].phase.Done?
           && s.reqs[r.phase.child].phase.answer.Value?
         case PeerError(_) => r.phase.Awaiting?
         case LoadValue(_) => r.phase.Local?
         case LoadError(_) => r.phase.Local?
         case DeleteKey(_) => r.phase.Loaded?
         case JoinReturn(_) =>
           r.phase.Joined? && r.phase.leader in s.reqs && HasAnswer(s.reqs[r.phase.leader].phase)
  }

  function Go(s: State, id: nat, phase: Phase): State
    requires id in s.reqs
  {
    s.(reqs := s.reqs[id := s.reqs[id].(phase := phase)])
  }

  ghost function Next(cl: Setup, s: State, step: Step): State
    requires Enabled(cl, s, step)
  {
    if step.Arrive? then s.(reqs := s.reqs[step.id := Request(step.node, step.key, 0, Arrived)])
    else
      var r := s.reqs[step.id];
      var cache := s.caches[r.node];
      match step
      case Look(id) =>
        if r.key == "" then Go(s, id, Done(Failed))
        else if r.key in Lru.Keys(cache) then
          Go(s, id, Done(Value(Lru.Lookup(cache, r.key)))).(caches := s.caches[r.node := Lru.Touch(cache, r.key)])
        else Go(s, id, Missed)
      case Enter(id) =>
        var at := (r.node, r.key);
        if at in s.flights then Go(s, id, Joined(s.flights[at]))
        else Go(s, id, Leading).(flights := s.flights[at := id])
      case Forward(id, child) =>
        var peer := PickAt(cl, r.node, r.key).value;
        var s1 := Go(s, id, Awaiting(child));
        s1.(reqs := s1.reqs[child := Request(peer, r.key, r.hops + 1, Arrived)])
      case Stay(id) => Go(s, id, Local)
      case PeerValue(id) => Go(s, id, Loaded(s.reqs[r.phase.child].phase.answer))
      case PeerError(id) => Go(s, id, Local).(failed := s.failed + {(r.node, r.key)})
      case LoadValue(id) =>
        Go(s, id, Loaded(Value(cl.load(r.key))))
        .(caches := s.caches[r.node := Lru.Put(cl.max, cache, r.key, cl.load(r.key))])
      case LoadError(id) => Go(s, id, Loaded(Failed))
      case DeleteKey(id) => Go(s, id, Done(r.phase.answer)).(flights := s.flights - {(r.node, r.key)})
      case JoinReturn(id) => Go(s, id, Done(s.reqs[r.phase.leader].phase.answer))
  }

  function Init(cl: Setup): State { State(map n | n in cl.lists :: [], map[], map[], {}) }

  /** Step k of a run leads from state k to state k + 1. */
  ghost predicate StepAt(cl: Setup, steps: seq<Step>, states: seq<State>, k: nat)
    requires |states| == |steps| + 1 && k < |steps|
  {
    Enabled(cl, states[k], steps[k]) && states[k + 1] == Next(cl, states[k], steps[k])
  }

  ghost predicate IsRun(cl: Setup, steps: seq<Step>, states: seq<State>) {
    && |states| == |steps| + 1 && states[0] == Init(cl)
    && forall k :: 0 <= k < |steps| ==> StepAt(cl, steps, states, k)
  }

  ghost predicate Reachable(cl: Setup, s: State) {
    exists steps, states :: IsRun(cl, steps, states) && states[|steps|] == s
  }

  // ------------------------------------------------------ one load at a time

  /** Leading a call whose entry is in the map. */
  predicate InFlight(p: Phase) { p.Leading? || p.Awaiting? || p.Local? || p.Loaded? }

  /** A request in flight is the one the map names; a joined one waits for a leader. */
  ghost predicate FlightOk(s: State, id: nat)
    requires id in s.reqs
  {
    var r := s.reqs[id];
    && (InFlight(r.phase) ==> (r.node, r.key) in s.flights && s.flights[(r.node, r.key)] == id)
    && (r.phase.Joined? ==>
          && r.phase.leader in s.reqs && s.reqs[r.phase.leader].node == r.node && s.reqs[r.phase.leader].key == r.key
          && (InFlight(s.reqs[r.phase.leader].phase) || s.reqs[r.phase.leader].phase.Done?))
  }

  ghost predicate FlightsOk(s: State) {
    && (forall at :: at in s.flights ==>
          && s.flights[at] in s.reqs && InFlight(s.reqs[s.flights[at]].phase)
          && (s.reqs[s.flights[at]].node, s.reqs[s.flights[at]].key) == at)
    && (forall id :: id in s.reqs ==> FlightOk(s, id))
  }

  /** Where a request is, and for what, never changes; failures are remembered. */
  lemma Fixed(cl: Setup, s: State, step: Step, id: nat)
    requires Enabled(cl, s, step) && id in s.reqs
    ensures var d := Next(cl, s, step);
            && s.failed <= d.failed && id in d.reqs && d.reqs[id].node == s.reqs[id].node
            && d.reqs[id].key == s.reqs[id].key && d.reqs[id].hops == s.reqs[id].hops
            && (step.Arrive? || id != step.id ==> d.reqs[id].phase == s.reqs[id].phase)
  {
  }

  /** Once in flight a request stays so until it is done. */
  lemma FlightGoesOn(cl: Setup, s: State, step: Step, id: nat)
    requires Enabled(cl, s, step) && id in s.reqs && (InFlight(s.reqs[id].phase) || s.reqs[id].phase.Done?)
    ensures id in Next(cl, s, step).reqs
    ensures var p := Next(cl, s, step).reqs[id].phase;
            && (InFlight(p) || p.Done?)
            && (InFlight(s.reqs[id].phase) && step != DeleteKey(id) ==> InFlight(p))
  {
    Fixed(cl, s, step, id);
  }

  /** The entries only change where the step works. */
  lemma FlightsKept(cl: Setup, s: State, step: Step, at: (string, string))
    requires Enabled(cl, s, step)
    requires !step.Arrive? ==> (s.reqs[step.id].node, s.reqs[step.id].key) != at
    ensures at in Next(cl, s, step).flights <==> at in s.flights
    ensures at in s.flights ==> Next(cl, s, step).flights[at] == s.flights[at]
  {
  }

  lemma OtherFlight(cl: Setup, s: State, step: Step, id: nat)
    requires FlightsOk(s) && Enabled(cl, s, step) && id in s.reqs && (step.Arrive? || id != step.id)
    ensures id in Next(cl, s, step).reqs && FlightOk(Next(cl, s, step), id)
  {
    var r := s.reqs[id];
    assert FlightOk(s, id);
    Fixed(cl, s, step, id);
    if InFlight(r.phase) {
      if step.Arrive? || (s.reqs[step.id].node, s.reqs[step.id].key) != (r.node, r.key) {
        FlightsKept(cl, s, step, (r.node, r.key));
      } else {
        assert FlightOk(s, step.id);
      }
    } else if r.phase.Joined? {
      Fixed(cl, s, step, r.phase.leader);
      FlightGoesOn(cl, s, step, r.phase.leader);
    }
  }

  lemma OwnFlight(cl: Setup, s: State, step: Step)
    requires FlightsOk(s) && Enabled(cl, s, step) && !step.Arrive?
    ensures step.id in Next(cl, s, step).reqs && FlightOk(Next(cl, s, step), step.id)
  {
    assert FlightOk(s, step.id);
  }

  lemma EntryStep(cl: Setup, s: State, step: Step, at: (string, string))
    requires FlightsOk(s) && Enabled(cl, s, step) && at in Next(cl, s, step).flights
    ensures var d := Next(cl, s, step);
            && d.flights[at] in d.reqs && InFlight(d.reqs[d.flights[at]].phase)
            && (d.reqs[d.flights[at]].node, d.reqs[d.flights[at]].key) == at
  {
    if at in s.flights {
      Fixed(cl, s, step, s.flights[at]);
      FlightGoesOn(cl, s, step, s.flights[at]);
      if !step.Arrive? {
        assert FlightOk(s, step.id);
      }
    }
  }

  lemma FlightsStep(cl: Setup, s: State, step: Step)
    requires FlightsOk(s) && Enabled(cl, s, step)
    ensures FlightsOk(Next(cl, s, step))
  {
    var d := Next(cl, s, step);
    forall at | at in d.flights
      ensures && d.flights[at] in d.reqs && InFlight(d.reqs[d.flights[at]].phase)
              && (d.reqs[d.flights[at]].node, d.reqs[d.flights[at]].key) == at
    {
      EntryStep(cl, s, step, at);
    }
    forall id | id in d.reqs ensures FlightOk(d, id) {
      if id in s.reqs && (step.Arrive? || id != step.id) {
        OtherFlight(cl, s, step, id);
      } else if id in s.reqs {
        OwnFlight(cl, s, step);
      }
    }
  }

  lemma {:induction false} FlightsRun(cl: Setup, steps: seq<Step>, states: seq<State>, n: nat)
    requires IsRun(cl, steps, states) && n <= |steps|
    ensures FlightsOk(states[n])
  {
    if n > 0 {
      FlightsRun(cl, steps, states, n - 1);
      assert StepAt(cl, steps, states, n - 1);
      FlightsStep(cl, states[n - 1], steps[n - 1]);
    }
  }

  /** Each key is fetched once at a time: two requests on one node for one key are never
      both loading it, from a peer or locally, whatever the nodes' lists are. */
  lemma OneLoadPerKey(cl: Setup, s: State, a: nat, b: nat)
    requires Reachable(cl, s) && a in s.reqs && b in s.reqs
    requires InFlight(s.reqs[a].phase) && InFlight(s.reqs[b].phase)
    requires s.reqs[a].node == s.reqs[b].node && s.reqs[a].key == s.reqs[b].key
    ensures a == b
  {
    var steps, states :| IsRun(cl, steps, states) && states[|steps|] == s;
    FlightsRun(cl, steps, states, |steps|);
    assert FlightOk(s, a) && FlightOk(s, b);
  }

  // -------------------------------------------------------------- agreement

  /** All nodes Set the same peers, namely the nodes, in any order; names are not
      empty and no ring point is claimed by two of them. */
  ghost predicate Agreed(cl: Setup) {
    && cl.config.replicas > 0
    && forall n :: n in cl.lists ==>
         && n in cl.lists[n] && "" !in cl.lists[n] && NoCollisions(cl.config, cl.lists[n])
         && (forall p :: p in cl.lists[n] <==> p in cl.lists)
  }

  ghost function Home(cl: Setup, node: string, key: string): string
    requires node in cl.lists
  {
    Owner(cl.config, cl.lists[node], key)
  }

  lemma RingNotEmpty(c: Config, peers: seq<string>, key: string)
    requires peers != [] && c.replicas > 0
    ensures Owner(c, peers, key) in peers
  {
    var last := |peers| - 1;
    assert PointOf(c, peers[last], 0) in Points(c, peers) by {
      ClaimedAt(c, peers[last], Replicas(c), 0);
    }
    CeilingExists(Points(c, peers), c.hash(key));
    var p :| IsCeiling(Points(c, peers), c.hash(key), p);
    OwnerIs(c, peers, key, p);
  }

  /** Every node names the same owner for every key, a node of the cluster; only the
      owner itself picks no peer. */
  lemma OwnersAgree(cl: Setup, n: string, m: string, key: string)
    requires Agreed(cl) && n in cl.lists && m in cl.lists
    ensures Home(cl, n, key) == Home(cl, m, key) && Home(cl, n, key) in cl.lists
    ensures PickAt(cl, n, key) == if Home(cl, m, key) == n then None else Some(Home(cl, m, key))
  {
    OrderIrrelevant(cl.config, cl.lists[n], cl.lists[m], key);
    RingNotEmpty(cl.config, cl.lists[n], key);
  }

  // -------------------------------------------------------------- invariant

  ghost predicate RequestOk(cl: Setup, s: State, id: nat)
    requires id in s.reqs
  {
    var r := s.reqs[id];
    && r.node in cl.lists
    && r.hops <= 1
    && (r.hops == 1 ==> r.node == Home(cl, r.node, r.key))
    && (r.phase.Awaiting? ==>
          && r.hops == 0 && r.node != Home(cl, r.node, r.key)
          && r.phase.child in s.reqs && s.reqs[r.phase.child].key == r.key
          && s.reqs[r.phase.child].hops == 1 && s.reqs[r.phase.child].node == Home(cl, r.node, r.key))
    && (r.phase.Local? ==> r.node == Home(cl, r.node, r.key) || (r.node, r.key) in s.failed)
    && (HasAnswer(r.phase) && r.phase.answer.Value? ==> r.phase.answer.v == cl.load(r.key))
  }

  /** The pairs of a node's cache: true data, and only for keys the node owns or failed
      to get from their owner. */
  ghost predicate PairOk(cl: Setup, node: string, failed: set<(string, string)>, p: Lru.Pair)
    requires node in cl.lists
  {
    p.value == cl.load(p.key) && (node == Home(cl, node, p.key) || (node, p.key) in failed)
  }

  ghost predicate PairsOk(cl: Setup, node: string, failed: set<(string, string)>, cache: seq<Lru.Pair>)
    requires node in cl.lists
  {
    forall i :: 0 <= i < |cache| ==> PairOk(cl, node, failed, cache[i])
  }

  ghost predicate CacheOk(cl: Setup, node: string, failed: set<(string, string)>, cache: seq<Lru.Pair>)
    requires node in cl.lists
  {
    Lru.Distinct(cache) && Lru.Fits(cl.max, cache) && PairsOk(cl, node, failed, cache)
  }

  ghost predicate Inv(cl: Setup, s: State) {
    && s.caches.Keys == cl.lists.Keys
    && (forall n :: n in s.caches ==> CacheOk(cl, n, s.failed, s.caches[n]))
    && (forall id :: id in s.reqs ==> RequestOk(cl, s, id))
  }

  lemma {:induction false} WithoutPairs(cl: Setup, node: string, failed: set<(string, string)>,
                                        cache: seq<Lru.Pair>, k: string)
    requires node in cl.lists && PairsOk(cl, node, failed, cache)
    ensures PairsOk(cl, node, failed, Lru.Without(cache, k))
  {
    if cache != [] {
      forall i | 0 <= i < |cache[1..]| ensures PairOk(cl, node, failed, cache[1..][i]) {
        assert PairOk(cl, node, failed, cache[i + 1]);
      }
      WithoutPairs(cl, node, failed, cache[1..], k);
      if cache[0].key != k {
        FrontPairs(cl, node, failed, cache[0], Lru.Without(cache[1..], k));
      }
    }
  }

  lemma FrontPairs(cl: Setup, node: string, failed: set<(string, string)>, p: Lru.Pair, w: seq<Lru.Pair>)
    requires node in cl.lists && PairOk(cl, node, failed, p)
    requires PairsOk(cl, node, failed, w)
    ensures PairsOk(cl, node, failed, [p] + w)
  {
    forall i | 0 <= i < |[p] + w| ensures PairOk(cl, node, failed, ([p] + w)[i]) {
      assert i > 0 ==> ([p] + w)[i] == w[i - 1];
    }
  }

  lemma PutKeeps(cl: Setup, node: string, failed: set<(string, string)>, cache: seq<Lru.Pair>, k: string)
    requires node in cl.lists && CacheOk(cl, node, failed, cache)
    requires node == Home(cl, node, k) || (node, k) in failed
    ensures CacheOk(cl, node, failed, Lru.Put(cl.max, cache, k, cl.load(k)))
  {
    var p, w := Lru.Pair(k, cl.load(k)), Lru.Without(cache, k);
    LruTheory.ApplyKeeps(cl.max, cache, LruTheory.Add(k, cl.load(k)));
    WithoutPairs(cl, node, failed, cache, k);
    FrontPairs(cl, node, failed, p, w);
    Lru.TrimIsLongestFittingPrefix(cl.max, [p] + w);
    var t := Lru.Trim(cl.max, [p] + w);
    forall i | 0 <= i < |t| ensures PairOk(cl, node, failed, t[i]) {
      assert t[i] == ([p] + w)[i];
    }
  }

  lemma TouchKeeps(cl: Setup, node: string, failed: set<(string, string)>, cache: seq<Lru.Pair>, k: string)
    requires node in cl.lists && CacheOk(cl, node, failed, cache) && k in Lru.Keys(cache)
    ensures CacheOk(cl, node, failed, Lru.Touch(cache, k)) && Lru.Lookup(cache, k) == cl.load(k)
  {
    var p := cache[Lru.IndexOf(cache, k)];
    Lru.TouchPresent(cache, k);
    WithoutPairs(cl, node, failed, cache, k);
    assert PairOk(cl, node, failed, p);
    FrontPairs(cl, node, failed, p, Lru.Without(cache, k));
  }

  lemma MoreFailures(cl: Setup, n: string, failed: set<(string, string)>, more: set<(string, string)>, cache: seq<Lru.Pair>)
    requires n in cl.lists && CacheOk(cl, n, failed, cache) && failed <= more
    ensures CacheOk(cl, n, more, cache)
  {
    forall i | 0 <= i < |cache| ensures PairOk(cl, n, more, cache[i]) {
      assert PairOk(cl, n, failed, cache[i]);
    }
  }

  lemma LookCache(cl: Setup, s: State, id: nat)
    requires Inv(cl, s) && Enabled(cl, s, Look(id))
    ensures var d, n := Next(cl, s, Look(id)), s.reqs[id].node;
            n in d.caches && CacheOk(cl, n, s.failed, d.caches[n])
  {
    var r := s.reqs[id];
    assert CacheOk(cl, r.node, s.failed, s.caches[r.node]);
    if r.key in Lru.Keys(s.caches[r.node]) {
      TouchKeeps(cl, r.node, s.failed, s.caches[r.node], r.key);
    }
  }

  lemma LoadCache(cl: Setup, s: State, id: nat)
    requires Inv(cl, s) && Enabled(cl, s, LoadValue(id))
    ensures var d, n := Next(cl, s, LoadValue(id)), s.reqs[id].node;
            n in d.caches && CacheOk(cl, n, s.failed, d.caches[n])
  {
    var r := s.reqs[id];
    assert RequestOk(cl, s, id) && CacheOk(cl, r.node, s.failed, s.caches[r.node]);
    PutKeeps(cl, r.node, s.failed, s.caches[r.node], r.key);
  }

  /** Only a lookup and a local load touch a cache, that of their node. */
  lemma OtherCache(cl: Setup, s: State, step: Step, n: string)
    requires Enabled(cl, s, step) && n in s.caches
    requires step.Look? || step.LoadValue? ==> s.reqs[step.id].node != n
    ensures n in Next(cl, s, step).caches && Next(cl, s, step).caches[n] == s.caches[n]
    ensures s.failed <= Next(cl, s, step).failed
  {
  }

  lemma CachesStep(cl: Setup, s: State, step: Step, n: string)
    requires Inv(cl, s) && Enabled(cl, s, step) && n in cl.lists
    ensures n in Next(cl, s, step).caches
    ensures CacheOk(cl, n, Next(cl, s, step).failed, Next(cl, s, step).caches[n])
  {
    if step.Look? && s.reqs[step.id].node == n {
      LookCache(cl, s, step.id);
    } else if step.LoadValue? && s.reqs[step.id].node == n {
      LoadCache(cl, s, step.id);
    } else {
      OtherCache(cl, s, step, n);
      MoreFailures(cl, n, s.failed, Next(cl, s, step).failed, s.caches[n]);
    }
  }

  lemma OtherRequest(cl: Setup, s: State, step: Step, id: nat)
    requires Inv(cl, s) && Enabled(cl, s, step) && id in s.reqs && (step.Arrive? || id != step.id)
    ensures id in Next(cl, s, step).reqs && RequestOk(cl, Next(cl, s, step), id)
  {
    assert RequestOk(cl, s, id);
    Fixed(cl, s, step, id);
    if s.reqs[id].phase.Awaiting? {
      Fixed(cl, s, step, s.reqs[id].phase.child);
    }
  }

  /** The request forwarded and the one it makes at the owner. */
  lemma ForwardRequest(cl: Setup, s: State, id: nat, child: nat)
    requires Agreed(cl) && Inv(cl, s) && Enabled(cl, s, Forward(id, child))
    ensures var d := Next(cl, s, Forward(id, child));
            id in d.reqs && RequestOk(cl, d, id) && child in d.reqs && RequestOk(cl, d, child)
  {
    var r := s.reqs[id];
    assert RequestOk(cl, s, id);
    OwnersAgree(cl, r.node, r.node, r.key);
    OwnersAgree(cl, r.node, PickAt(cl, r.node, r.key).value, r.key);
  }

  lemma StayRequest(cl: Setup, s: State, id: nat)
    requires Agreed(cl) && Inv(cl, s) && Enabled(cl, s, Stay(id))
    ensures id in Next(cl, s, Stay(id)).reqs && RequestOk(cl, Next(cl, s, Stay(id)), id)
  {
    assert RequestOk(cl, s, id);
    OwnersAgree(cl, s.reqs[id].node, s.reqs[id].node, s.reqs[id].key);
  }

  lemma LookRequest(cl: Setup, s: State, id: nat)
    requires Inv(cl, s) && Enabled(cl, s, Look(id))
    ensures id in Next(cl, s, Look(id)).reqs && RequestOk(cl, Next(cl, s, Look(id)), id)
  {
    var r := s.reqs[id];
    assert RequestOk(cl, s, id);
    if r.key in Lru.Keys(s.caches[r.node]) {
      TouchKeeps(cl, r.node, s.failed, s.caches[r.node], r.key);
    }
  }

  /** The steps after the choice of a peer, and the passage through Do. */
  lemma LoadRequest(cl: Setup, s: State, step: Step)
    requires Inv(cl, s) && FlightsOk(s) && Enabled(cl, s, step)
    requires !step.Arrive? && !step.Look? && !step.Forward? && !step.Stay?
    ensures step.id in Next(cl, s, step).reqs && RequestOk(cl, Next(cl, s, step), step.id)
  {
    var r := s.reqs[step.id];
    assert RequestOk(cl, s, step.id);
    if step.PeerValue? {
      assert RequestOk(cl, s, r.phase.child);
    } else if step.JoinReturn? {
      assert FlightOk(s, step.id) && RequestOk(cl, s, r.phase.leader);
    }
  }

  lemma ArriveRequest(cl: Setup, s: State, id: nat, node: string, key: string)
    requires Enabled(cl, s, Arrive(id, node, key))
    ensures id in Next(cl, s, Arrive(id, node, key)).reqs && RequestOk(cl, Next(cl, s, Arrive(id, node, key)), id)
  {
  }

  lemma OwnRequest(cl: Setup, s: State, step: Step)
    requires Agreed(cl) && Inv(cl, s) && FlightsOk(s) && Enabled(cl, s, step) && !step.Forward?
    ensures step.id in Next(cl, s, step).reqs && RequestOk(cl, Next(cl, s, step), step.id)
  {
    if step.Arrive? {
      ArriveRequest(cl, s, step.id, step.node, step.key);
    } else if step.Look? {
      LookRequest(cl, s, step.id);
    } else if step.Stay? {
      StayRequest(cl, s, step.id);
    } else {
      LoadRequest(cl, s, step);
    }
  }

  /** No request appears but the step's own and the one it forwards. */
  lemma KnownRequests(cl: Setup, s: State, step: Step, id: nat)
    requires Enabled(cl, s, step) && id in Next(cl, s, step).reqs
    ensures id in s.reqs || id == step.id || (step.Forward? && id == step.child)
    ensures step.Arrive? ==> step.id !in s.reqs
  {
  }

  lemma RequestStep(cl: Setup, s: State, step: Step, id: nat)
    requires Agreed(cl) && Inv(cl, s) && FlightsOk(s) && Enabled(cl, s, step) && id in Next(cl, s, step).reqs
    ensures RequestOk(cl, Next(cl, s, step), id)
  {
    KnownRequests(cl, s, step, id);
    if step.Forward? && (id == step.id || id == step.child) {
      ForwardRequest(cl, s, step.id, step.child);
    } else if id == step.id {
      OwnRequest(cl, s, step);
    } else {
      OtherRequest(cl, s, step, id);
    }
  }

  lemma NodesKept(cl: Setup, s: State, step: Step)
    requires Enabled(cl, s, step)
    ensures Next(cl, s, step).caches.Keys == s.caches.Keys
  {
  }

  lemma InvStep(cl: Setup, s: State, step: Step)
    requires Agreed(cl) && Inv(cl, s) && FlightsOk(s) && Enabled(cl, s, step)
    ensures Inv(cl, Next(cl, s, step))
  {
    var d := Next(cl, s, step);
    NodesKept(cl, s, step);
    forall n | n in d.caches ensures CacheOk(cl, n, d.failed, d.caches[n]) {
      CachesStep(cl, s, step, n);
    }
    forall id | id in d.reqs ensures RequestOk(cl, d, id) {
      RequestStep(cl, s, step, id);
    }
  }

  lemma InitInv(cl: Setup)
    ensures Inv(cl, Init(cl))
  {
  }

  lemma InvAt(cl: Setup, steps: seq<Step>, states: seq<State>, k: nat)
    requires |states| == |steps| + 1 && k < |steps| && StepAt(cl, steps, states, k)
    requires Agreed(cl) && Inv(cl, states[k]) && FlightsOk(states[k])
    ensures Inv(cl, states[k + 1])
  {
    InvStep(cl, states[k], steps[k]);
  }

  lemma {:induction false} RunInv(cl: Setup, steps: seq<Step>, states: seq<State>, n: nat)
    requires Agreed(cl) && IsRun(cl, steps, states) && n <= |steps|
    ensures Inv(cl, states[n])
  {
    if n > 0 {
      RunInv(cl, steps, states, n - 1);
      FlightsRun(cl, steps, states, n - 1);
      InvAt(cl, steps, states, n - 1);
    } else {
      InitInv(cl);
    }
  }

  lemma ReachableInv(cl: Setup, s: State)
    requires Agreed(cl) && Reachable(cl, s)
    ensures Inv(cl, s)
  {
    var steps, states :| IsRun(cl, steps, states) && states[|steps|] == s;
    RunInv(cl, steps, states, |steps|);
  }

  // ------------------------------------------------------------ main results

  /** Every request makes at most one hop, a forwarded request is at the owner of its
      key, and the owner never forwards. */
  lemma AtMostOneHop(cl: Setup, s: State, id: nat)
    requires Agreed(cl) && Reachable(cl, s) && id in s.reqs
    ensures s.reqs[id].node in cl.lists && s.reqs[id].hops <= 1
    ensures s.reqs[id].hops == 1 ==> s.reqs[id].node == Home(cl, s.reqs[id].node, s.reqs[id].key)
    ensures s.reqs[id].node == Home(cl, s.reqs[id].node, s.reqs[id].key) ==> !s.reqs[id].phase.Awaiting?
  {
    ReachableInv(cl, s);
    assert RequestOk(cl, s, id);
  }

  /** Every answer is the backing store's value, and so is every cached pair. A node
      caches a key only if it owns it or once failed to get it from its owner; in a
      failure-free run, only at the owner. */
  lemma CachedAtOwner(cl: Setup, s: State, n: string, i: nat)
    requires Agreed(cl) && Reachable(cl, s) && n in s.caches && i < |s.caches[n]|
    ensures n in cl.lists && s.caches[n][i].value == cl.load(s.caches[n][i].key)
    ensures n == Home(cl, n, s.caches[n][i].key) || (n, s.caches[n][i].key) in s.failed
    ensures s.failed == {} ==> n == Home(cl, n, s.caches[n][i].key)
  {
    ReachableInv(cl, s);
    assert CacheOk(cl, n, s.failed, s.caches[n]);
    assert PairOk(cl, n, s.failed, s.caches[n][i]);
  }
}
