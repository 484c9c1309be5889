/** One node of cache/geecache.go with cache/cache.go: `Group.Get` reads through the LRU
    cache, a peer, and the local getter. */
module Group {
  import opened Lru
  import opened LruTheory

  datatype Answer = Answer(value: Value) | KeyRequired | LoadFailed

  /** What the peer picked for the key does: there is none, it fails, or it answers. */
  datatype Peer = NoPeer | PeerFails | PeerAnswers(value: Value)

  /** What the local getter does. */
  datatype Source = SourceFails | SourceAnswers(value: Value)

  /** The answer of a load, from the peer or else from the getter. */
  function LoadAnswer(peer: Peer, source: Source): Answer {
    if peer.PeerAnswers? then Answer(peer.value)
    else if source.SourceAnswers? then Answer(source.value)
    else LoadFailed
  }

  /** The recency list it leaves: only what the getter answered enters the cache. */
  function LoadList(max: nat, s: seq<Pair>, key: Key, peer: Peer, source: Source): seq<Pair> {
    if !peer.PeerAnswers? && source.SourceAnswers? then Put(max, s, key, source.value) else s
  }

  /** The answer of one request, given the recency list it finds. */
  function AnswerOf(s: seq<Pair>, key: Key, peer: Peer, source: Source): Answer {
    if key == "" then KeyRequired
    else if key in Keys(s) then Answer(Lookup(s, key))
    else LoadAnswer(peer, source)
  }

  function ListAfter(max: nat, s: seq<Pair>, key: Key, peer: Peer, source: Source): seq<Pair> {
    if key == "" then s
    else if key in Keys(s) then Touch(s, key)
    else LoadList(max, s, key, peer, source)
  }

  class Group {
    const cacheBytes: nat
    var lru: Cache?           // created by the first add

    ghost predicate Valid()
      reads this, lru, if lru == null then {} else lru.Repr
    {
      lru != null ==> lru.Valid() && this !in lru.Repr && lru.maxBytes == cacheBytes
    }

    ghost function List(): seq<Pair>
      reads this, lru
    {
      if lru == null then [] else lru.contents
    }

    constructor (cacheBytes: nat)
      ensures Valid() && List() == [] && this.cacheBytes == cacheBytes
    {
      this.cacheBytes, lru := cacheBytes, null;
    }

    method Get(key: Key, peer: Peer, source: Source) returns (answer: Answer)
      requires Valid()
      modifies this, lru, if lru == null then {} else lru.Repr
      ensures Valid()
      ensures answer == AnswerOf(old(List()), key, peer, source)
      ensures List() == ListAfter(cacheBytes, old(List()), key, peer, source)
      ensures key != "" && key !in Keys(old(List())) && peer.PeerAnswers? ==>
                answer == Answer(peer.value) && List() == old(List())
      ensures key != "" && key !in Keys(old(List())) && !peer.PeerAnswers? && source.SourceAnswers? ==>
                answer == Answer(source.value) && List() == Put(cacheBytes, old(List()), key, source.value)
    {
      if key == "" {
        return KeyRequired;
      }
      if lru != null {
        var v, ok := lru.Get(key);
        if ok {
          return Answer(v);
        }
      }
      answer := Load(key, peer, source);
    }

    /** The function that load runs under singleflight. Another request may have cached
        the key since the lookup. */
    method Load(key: Key, peer: Peer, source: Source) returns (answer: Answer)
      requires Valid()
      modifies this, lru, if lru == null then {} else lru.Repr
      ensures Valid()
      ensures answer == LoadAnswer(peer, source)
      ensures List() == LoadList(cacheBytes, old(List()), key, peer, source)
      ensures peer.PeerAnswers? ==> answer == Answer(peer.value) && List() == old(List())
      ensures !peer.PeerAnswers? && source.SourceAnswers? ==>
                answer == Answer(source.value) && List() == Put(cacheBytes, old(List()), key, source.value)
      ensures !peer.PeerAnswers? && source.SourceFails? ==> answer == LoadFailed && List() == old(List())
    {
      if peer.PeerAnswers? {
        return Answer(peer.value);
      }
      if source.SourceFails? {
        return LoadFailed;
      }
      if lru == null {
        lru := new Cache(cacheBytes);
      }
      lru.Add(key, source.value);
      return Answer(source.value);
    }
  }

  // ------------------------------------------------------------- whole runs

  /** A request, with what its peer and its getter do if they are asked. */
  datatype Request = Request(key: Key, peer: Peer, source: Source)

  /** The recency list after a history of requests of any kind. */
  function Served(max: nat, reqs: seq<Request>): seq<Pair> {
    if reqs == [] then []
    else
      var r := reqs[|reqs| - 1];
      ListAfter(max, Served(max, reqs[..|reqs| - 1]), r.key, r.peer, r.source)
  }

  /** A request that hits or is loaded locally, as a read-through request. */
  function ReadOf(s: seq<Pair>, r: Request): seq<Op> {
    if r.key == "" then []
    else if r.key in Keys(s) then [Read(r.key, Lookup(s, r.key))]
    else if !r.peer.PeerAnswers? && r.source.SourceAnswers? then [Read(r.key, r.source.value)]
    else []
  }

  function Effective(max: nat, reqs: seq<Request>): seq<Op> {
    if reqs == [] then []
    else
      var before := reqs[..|reqs| - 1];
      Effective(max, before) + ReadOf(Served(max, before), reqs[|reqs| - 1])
  }

  /** One request takes the list through its read, if any. */
  lemma RunReads(max: nat, ops: seq<Op>, r: Request)
    ensures Run(max, ops + ReadOf(Run(max, ops), r)) == ListAfter(max, Run(max, ops), r.key, r.peer, r.source)
  {
    var more := ReadOf(Run(max, ops), r);
    if more == [] {
      assert ops + more == ops;
    } else {
      assert (ops + more)[..|ops|] == ops;
    }
  }

  /** Any history with hits, misses, peers and failures takes the cache through a
      read-through run of the cache theory. */
  lemma {:induction false} ServedIsRun(max: nat, reqs: seq<Request>)
    ensures Served(max, reqs) == Run(max, Effective(max, reqs))
  {
    if reqs != [] {
      var before := reqs[..|reqs| - 1];
      ServedIsRun(max, before);
      RunReads(max, Effective(max, before), reqs[|reqs| - 1]);
    }
  }

  /** Peer and getter, when they answer, give the value of the key. */
  predicate Truthful(r: Request, load: Key -> Value) {
    && (r.peer.PeerAnswers? ==> r.peer.value == load(r.key))
    && (r.source.SourceAnswers? ==> r.source.value == load(r.key))
  }

  predicate Loads(ops: seq<Op>, load: Key -> Value) {
    forall i :: 0 <= i < |ops| ==> ops[i].Read? && ops[i].value == load(ops[i].key)
  }

  lemma {:induction false} LoadsAreCoherent(ops: seq<Op>, load: Key -> Value)
    requires Loads(ops, load)
    ensures Coherent(ops)
    ensures forall k :: k in Latest(ops) ==> Latest(ops)[k] == load(k)
  {
    if ops != [] {
      LoadsAreCoherent(ops[..|ops| - 1], load);
    }
  }

  /** What is cached after such a history. */
  lemma CachedIsTrue(max: nat, reqs: seq<Request>, load: Key -> Value, k: Key)
    requires Loads(Effective(max, reqs), load) && k in Keys(Served(max, reqs))
    ensures Lookup(Served(max, reqs), k) == load(k)
  {
    var ops := Effective(max, reqs);
    ServedIsRun(max, reqs);
    LoadsAreCoherent(ops, load);
    CoherentRun(max, ops);
    StoresAt(Run(max, ops), Latest(ops), k);
  }

  lemma {:induction false} EffectiveLoads(max: nat, reqs: seq<Request>, load: Key -> Value)
    requires forall i :: 0 <= i < |reqs| ==> Truthful(reqs[i], load)
    ensures Loads(Effective(max, reqs), load)
  {
    if reqs != [] {
      var before, r := reqs[..|reqs| - 1], reqs[|reqs| - 1];
      EffectiveLoads(max, before, load);
      assert Truthful(r, load);
      if r.key in Keys(Served(max, before)) {
        CachedIsTrue(max, before, load, r.key);
      }
    }
  }

  /** The cache is transparent: after any history in which peers and getters fail or give
      the key's value, a request is answered with that value if and only if the key is
      cached or the peer or the getter answers; otherwise it fails. */
  lemma Transparent(max: nat, reqs: seq<Request>, load: Key -> Value, r: Request)
    requires forall i :: 0 <= i < |reqs| ==> Truthful(reqs[i], load)
    requires Truthful(r, load)
    ensures var s := Served(max, reqs);
            var answer := AnswerOf(s, r.key, r.peer, r.source);
            if r.key == "" then answer == KeyRequired
            else if r.key in Keys(s) || r.peer.PeerAnswers? || r.source.SourceAnswers? then answer == Answer(load(r.key))
            else answer == LoadFailed
  {
    EffectiveLoads(max, reqs, load);
    if r.key in Keys(Served(max, reqs)) {
      CachedIsTrue(max, reqs, load, r.key);
    }
  }
}
