/** Properties of whole runs of the LRU cache: stack inclusion between caches of
    different bounds, and the closed form of the contents under read-through
    requests (cache/lru/lru.go together with cache/geecache.go). */
module LruTheory {
  import opened Lru

  /** One use of the cache. For a read-through request, `value` is what the loader
      answers if the key is missing at that moment. */
  datatype Op = Add(key: Key, value: Value) | Read(key: Key, value: Value)

  function Apply(max: nat, s: seq<Pair>, op: Op): seq<Pair> {
    match op
    case Add(k, v) => Put(max, s, k, v)
    case Read(k, v) => ReadThrough(max, s, k, v)
  }

  /** The recency list after a run that starts with an empty cache. */
  function Run(max: nat, ops: seq<Op>): seq<Pair> {
    if ops == [] then [] else Apply(max, Run(max, ops[..|ops| - 1]), ops[|ops| - 1])
  }

  // ------------------------------------------------ what every operation keeps

  lemma TrimKeeps(max: nat, s: seq<Pair>)
    requires Distinct(s)
    ensures Distinct(Trim(max, s)) && Fits(max, Trim(max, s)) && Trim(max, s) <= s
    ensures Keys(Trim(max, s)) <= Keys(s)
  {
    TrimIsLongestFittingPrefix(max, s);
    var t := Trim(max, s);
    assert s == t + s[|t|..];
    Concat(t, s[|t|..], "");
  }

  lemma ApplyKeeps(max: nat, s: seq<Pair>, op: Op)
    requires Distinct(s) && Fits(max, s)
    ensures Distinct(Apply(max, s, op)) && Fits(max, Apply(max, s, op))
    ensures Keys(Apply(max, s, op)) <= Keys(s) + {op.key}
  {
    WithoutAbsent(s, op.key);
    Front(Pair(op.key, op.value), Without(s, op.key));
    TrimKeeps(max, [Pair(op.key, op.value)] + Without(s, op.key));
    if op.Read? && op.key in Keys(s) {
      TouchPresent(s, op.key);
    }
  }

  /** In every reachable cache keys are distinct and the byte bound holds. */
  lemma {:induction false} RunKeeps(max: nat, ops: seq<Op>)
    ensures Distinct(Run(max, ops)) && Fits(max, Run(max, ops))
  {
    if ops != [] {
      RunKeeps(max, ops[..|ops| - 1]);
      ApplyKeeps(max, Run(max, ops[..|ops| - 1]), ops[|ops| - 1]);
    }
  }

  /** A hit has the effect of adding the stored value again. */
  lemma HitIsPut(max: nat, s: seq<Pair>, k: Key)
    requires Distinct(s) && Fits(max, s) && k in Keys(s)
    ensures Touch(s, k) == Put(max, s, k, Lookup(s, k))
  {
    TouchPresent(s, k);
  }

  // --------------------------------------------------------- stack inclusion

  /** The bound `m1` is at most `m2`, with 0 meaning unbounded. */
  predicate AtMost(m1: nat, m2: nat) { m2 == 0 || (m1 != 0 && m1 <= m2) }

  /** The value most recently added or loaded under each key. */
  function Latest(ops: seq<Op>): map<Key, Value> {
    if ops == [] then map[]
    else Latest(ops[..|ops| - 1])[ops[|ops| - 1].key := ops[|ops| - 1].value]
  }

  /** The loader answers with the value most recently written under the key. */
  predicate Coherent(ops: seq<Op>) {
    ops == [] ||
    var before, op := ops[..|ops| - 1], ops[|ops| - 1];
    && Coherent(before)
    && (op.Read? && op.key in Latest(before) ==> op.value == Latest(before)[op.key])
  }

  predicate Stores(s: seq<Pair>, latest: map<Key, Value>) {
    s == [] ||
    (s[0].key in latest && latest[s[0].key] == s[0].value && Stores(s[1..], latest))
  }

  lemma {:induction false} StoresAt(s: seq<Pair>, latest: map<Key, Value>, k: Key)
    requires Stores(s, latest) && k in Keys(s)
    ensures k in latest && Lookup(s, k) == latest[k]
  {
    if s[0].key != k {
      StoresAt(s[1..], latest, k);
    }
  }

  lemma {:induction false} StoresWithout(s: seq<Pair>, latest: map<Key, Value>, k: Key, v: Value)
    requires Stores(s, latest)
    ensures Stores(Without(s, k), latest[k := v])
  {
    if s != [] {
      StoresWithout(s[1..], latest, k, v);
      if s[0].key != k {
        assert Without(s, k)[1..] == Without(s[1..], k);
      }
    }
  }

  lemma {:induction false} StoresPrefix(p: seq<Pair>, s: seq<Pair>, latest: map<Key, Value>)
    requires p <= s && Stores(s, latest)
    ensures Stores(p, latest)
  {
    if p != [] {
      StoresPrefix(p[1..], s[1..], latest);
    }
  }

  /** In a coherent run the cache holds the latest values, and every operation,
      hit or not, amounts to adding the operation's value. */
  lemma {:induction false} CoherentRun(max: nat, ops: seq<Op>)
    requires Coherent(ops)
    ensures Stores(Run(max, ops), Latest(ops))
    ensures ops != [] ==>
      var op := ops[|ops| - 1];
      Run(max, ops) == Put(max, Run(max, ops[..|ops| - 1]), op.key, op.value)
  {
    if ops != [] {
      var before, op := ops[..|ops| - 1], ops[|ops| - 1];
      var s := Run(max, before);
      CoherentRun(max, before);
      RunKeeps(max, before);
      if op.Read? && op.key in Keys(s) {
        StoresAt(s, Latest(before), op.key);
        HitIsPut(max, s, op.key);
      }
      var full := [Pair(op.key, op.value)] + Without(s, op.key);
      StoresWithout(s, Latest(before), op.key, op.value);
      assert full[1..] == Without(s, op.key);
      TrimIsLongestFittingPrefix(max, full);
      StoresPrefix(Trim(max, full), full, Latest(ops));
    }
  }

  lemma PutMonotone(m1: nat, m2: nat, a: seq<Pair>, b: seq<Pair>, k: Key, v: Value)
    requires AtMost(m1, m2) && a <= b
    ensures Put(m1, a, k, v) <= Put(m2, b, k, v)
  {
    assert b == a + b[|a|..];
    Concat(a, b[|a|..], k);
    var p := [Pair(k, v)];
    assert p + Without(b, k) == (p + Without(a, k)) + Without(b[|a|..], k);
    TrimIsLongestFittingPrefix(m1, p + Without(a, k));
    TrimIsLongestFittingPrefix(m2, p + Without(b, k));
    var t := Trim(m1, p + Without(a, k));
    assert t <= p + Without(b, k) && Fits(m2, t);
  }

  /** Stack inclusion: over any coherent run the smaller cache's recency list is a
      prefix of the larger one's, in keys and in values. */
  lemma {:induction false} StackInclusion(m1: nat, m2: nat, ops: seq<Op>)
    requires AtMost(m1, m2) && Coherent(ops)
    ensures Run(m1, ops) <= Run(m2, ops)
  {
    if ops != [] {
      var before, op := ops[..|ops| - 1], ops[|ops| - 1];
      StackInclusion(m1, m2, before);
      CoherentRun(m1, ops);
      CoherentRun(m2, ops);
      PutMonotone(m1, m2, Run(m1, before), Run(m2, before), op.key, op.value);
    }
  }

  /** So a larger cache never misses where a smaller one hits. */
  lemma LargerNeverMisses(m1: nat, m2: nat, ops: seq<Op>, k: Key)
    requires AtMost(m1, m2) && Coherent(ops) && k in Keys(Run(m1, ops))
    ensures k in Keys(Run(m2, ops)) && Lookup(Run(m2, ops), k) == Lookup(Run(m1, ops), k)
  {
    var a, b := Run(m1, ops), Run(m2, ops);
    StackInclusion(m1, m2, ops);
    assert b == a + b[|a|..];
    Concat(a, b[|a|..], k);
    CoherentRun(m1, ops);
    CoherentRun(m2, ops);
    StoresAt(a, Latest(ops), k);
    StoresAt(b, Latest(ops), k);
  }

  /** On every read that only the larger cache answers, the loader gives the smaller one
      the same value, or one too large to be kept. */
  predicate Agreeing(m1: nat, m2: nat, ops: seq<Op>) {
    ops == [] ||
    var before, op := ops[..|ops| - 1], ops[|ops| - 1];
    && Agreeing(m1, m2, before)
    && (op.Read? && op.key !in Keys(Run(m1, before)) && op.key in Keys(Run(m2, before)) ==>
          op.value == Lookup(Run(m2, before), op.key) || !Fits(m1, [Pair(op.key, op.value)]))
  }

  ghost predicate AlwaysIncluded(m1: nat, m2: nat, ops: seq<Op>) {
    forall n :: 0 <= n <= |ops| ==> Run(m1, ops[..n]) <= Run(m2, ops[..n])
  }

  lemma {:induction false} LookupInPrefix(a: seq<Pair>, b: seq<Pair>, k: Key)
    requires a <= b && k in Keys(a)
    ensures k in Keys(b) && Lookup(b, k) == Lookup(a, k)
  {
    if a[0].key != k {
      LookupInPrefix(a[1..], b[1..], k);
    }
  }

  /** `Put` leaves the new pair in front, unless it alone exceeds the bound. */
  lemma PutInFront(max: nat, s: seq<Pair>, k: Key, v: Value)
    ensures var r := Put(max, s, k, v);
            if Fits(max, [Pair(k, v)]) then r != [] && r[0] == Pair(k, v) else r == []
  {
    var p := Pair(k, v);
    var full := [p] + Without(s, k);
    TrimIsLongestFittingPrefix(max, full);
    var r := Trim(max, full);
    assert [p] <= full;
    if r != [] {
      assert r[0] == p && [p] <= r;
      TotalOfPrefix([p], r);
    }
  }

  /** One operation keeps the inclusion exactly under that condition. */
  lemma InclusionStep(m1: nat, m2: nat, a: seq<Pair>, b: seq<Pair>, op: Op)
    requires AtMost(m1, m2) && a <= b && Distinct(b) && Fits(m1, a) && Fits(m2, b)
    ensures Apply(m1, a, op) <= Apply(m2, b, op) <==>
              (op.Read? && op.key !in Keys(a) && op.key in Keys(b) ==>
                 op.value == Lookup(b, op.key) || !Fits(m1, [Pair(op.key, op.value)]))
  {
    var k, v := op.key, op.value;
    if op.Add? || k !in Keys(b) {
      assert k in Keys(a) ==> k in Keys(b) by {
        if k in Keys(a) {
          LookupInPrefix(a, b, k);
        }
      }
      PutMonotone(m1, m2, a, b, k, v);
    } else {
      HitIsPut(m2, b, k);
      if k in Keys(a) {
        LookupInPrefix(a, b, k);
        assert b == a + b[|a|..];
        Concat(a, b[|a|..], k);
        HitIsPut(m1, a, k);
      } else {
        PutInFront(m1, a, k, v);
      }
      PutMonotone(m1, m2, a, b, k, Lookup(b, k));
    }
  }

  lemma IncludedBefore(m1: nat, m2: nat, ops: seq<Op>)
    requires ops != []
    ensures var before := ops[..|ops| - 1];
            AlwaysIncluded(m1, m2, ops) <==>
              AlwaysIncluded(m1, m2, before) && Run(m1, ops) <= Run(m2, ops)
    ensures var before := ops[..|ops| - 1];
            AlwaysIncluded(m1, m2, before) ==> Run(m1, before) <= Run(m2, before)
  {
    var before := ops[..|ops| - 1];
    assert forall n :: 0 <= n < |ops| ==> before[..n] == ops[..n];
    assert ops[..|ops|] == ops && before[..|before|] == before;
  }

  /** Exactly when a run of arbitrary adds and reads keeps the smaller cache included. */
  lemma {:induction false} InclusionIff(m1: nat, m2: nat, ops: seq<Op>)
    requires AtMost(m1, m2)
    ensures AlwaysIncluded(m1, m2, ops) <==> Agreeing(m1, m2, ops)
  {
    if ops != [] {
      var before, op := ops[..|ops| - 1], ops[|ops| - 1];
      InclusionIff(m1, m2, before);
      IncludedBefore(m1, m2, ops);
      if AlwaysIncluded(m1, m2, before) {
        RunKeeps(m1, before);
        RunKeeps(m2, before);
        InclusionStep(m1, m2, Run(m1, before), Run(m2, before), op);
      }
    }
  }

  /** The lists that the example below goes through. */
  lemma TwoPairs(p: Pair, q: Pair)
    requires p.key == "a" && q.key == "b" && |p.value| == 1 && |q.value| == 1
    ensures Put(2, [], "a", p.value) == [p] && Put(4, [], "a", p.value) == [p]
    ensures Put(2, [q], "a", p.value) == [p]
    ensures Put(2, [p], "b", q.value) == [q] && Put(4, [p], "b", q.value) == [q, p]
    ensures Touch([q, p], "a") == [p, q]
  {
    assert [p][1..] == [] && [q][1..] == [] && [q, p][1..] == [p] && [p, q][1..] == [q];
    assert [q] + [p] == [q, p] && [p] + [q] == [p, q];
    assert Without([p], "b") == [p] && Without([q], "a") == [q] && Without([q, p], "a") == [q];
    Front(p, []);
    Front(q, []);
    Front(p, [q]);
    Front(q, [p]);
    TrimUnique(2, [p], [p]);
    TrimUnique(4, [p], [p]);
    assert [q, p][..2] == [q, p] && [p, q][..2] == [p, q];
    TrimUnique(2, [p, q], [p]);
    TrimUnique(2, [q, p], [q]);
    TrimUnique(4, [q, p], [q, p]);
  }

  lemma ThreeSteps(max: nat, op1: Op, op2: Op, op3: Op)
    ensures Run(max, [op1, op2, op3]) == Apply(max, Apply(max, Apply(max, [], op1), op2), op3)
  {
    assert [op1][..0] == [] && [op1, op2][..1] == [op1] && [op1, op2, op3][..2] == [op1, op2];
    assert Run(max, [op1]) == Apply(max, [], op1);
    assert Run(max, [op1, op2]) == Apply(max, Apply(max, [], op1), op2);
  }

  /** With a loader that contradicts an earlier `Add`, inclusion fails: bounds 2 and
      4, add a, add b, then read a through a loader with a new value. */
  lemma InclusionNeedsCoherence()
    ensures var ops := [Add("a", [1]), Add("b", [1]), Read("a", [2])];
            && Run(2, ops) == [Pair("a", [2])]
            && Run(4, ops) == [Pair("a", [1]), Pair("b", [1])]
  {
    var a, b, c := Pair("a", [1]), Pair("b", [1]), Pair("a", [2]);
    ThreeSteps(2, Add("a", [1]), Add("b", [1]), Read("a", [2]));
    ThreeSteps(4, Add("a", [1]), Add("b", [1]), Read("a", [2]));
    TwoPairs(a, b);
    TwoPairs(c, b);
    assert "a" !in Keys([b]) && "a" in Keys([b, a]) by {
      assert [b, a][1..] == [a] && [b][1..] == [];
    }
  }

  // ------------------------------------------------------------ closed form

  function KeySeq(s: seq<Pair>): (ks: seq<Key>)
    ensures |ks| == |s|
    ensures forall i :: 0 <= i < |s| ==> ks[i] == s[i].key
  {
    if s == [] then [] else [s[0].key] + KeySeq(s[1..])
  }

  function Drop(ks: seq<Key>, k: Key): seq<Key> {
    if ks == [] then []
    else if ks[0] == k then Drop(ks[1..], k)
    else [ks[0]] + Drop(ks[1..], k)
  }

  /** The distinct keys of a history, ordered by last request, latest first. */
  function ByLastRequest(ops: seq<Op>): seq<Key> {
    if ops == [] then []
    else [ops[|ops| - 1].key] + Drop(ByLastRequest(ops[..|ops| - 1]), ops[|ops| - 1].key)
  }

  function Cost(ks: seq<Key>, size: Key -> nat): nat {
    if ks == [] then 0 else |ks[0]| + size(ks[0]) + Cost(ks[1..], size)
  }

  predicate Affordable(max: nat, ks: seq<Key>, size: Key -> nat) {
    max == 0 || Cost(ks, size) <= max
  }

  ghost predicate LongestAffordable(max: nat, p: seq<Key>, ks: seq<Key>, size: Key -> nat) {
    && p <= ks && Affordable(max, p, size)
    && forall q :: q <= ks && Affordable(max, q, size) ==> q <= p
  }

  predicate Sized(s: seq<Pair>, size: Key -> nat) {
    forall i :: 0 <= i < |s| ==> |s[i].value| == size(s[i].key)
  }

  function KeySet(ks: seq<Key>): set<Key> {
    if ks == [] then {} else {ks[0]} + KeySet(ks[1..])
  }

  predicate NoRepeats(ks: seq<Key>) {
    ks == [] || (ks[0] !in KeySet(ks[1..]) && NoRepeats(ks[1..]))
  }

  lemma {:induction false} KeyConcat(a: seq<Key>, b: seq<Key>, k: Key, size: Key -> nat)
    ensures Cost(a + b, size) == Cost(a, size) + Cost(b, size)
    ensures Drop(a + b, k) == Drop(a, k) + Drop(b, k)
    ensures KeySet(a + b) == KeySet(a) + KeySet(b)
    ensures NoRepeats(a + b) <==> NoRepeats(a) && NoRepeats(b) && KeySet(a) !! KeySet(b)
  {
    if a == [] {
      assert a + b == b;
    } else {
      assert (a + b)[1..] == a[1..] + b;
      KeyConcat(a[1..], b, k, size);
    }
  }

  lemma {:induction false} DropAbsent(ks: seq<Key>, k: Key)
    ensures k !in KeySet(ks) ==> Drop(ks, k) == ks
    ensures KeySet(Drop(ks, k)) == KeySet(ks) - {k}
    ensures NoRepeats(ks) ==> NoRepeats(Drop(ks, k))
  {
    if ks != [] {
      DropAbsent(ks[1..], k);
      if ks[0] != k {
        assert Drop(ks, k)[1..] == Drop(ks[1..], k);
      }
    }
  }

  lemma {:induction false} DropPresent(ks: seq<Key>, k: Key, size: Key -> nat)
    requires NoRepeats(ks) && k in KeySet(ks)
    ensures |k| + size(k) + Cost(Drop(ks, k), size) == Cost(ks, size)
  {
    if ks[0] == k {
      DropAbsent(ks[1..], k);
    } else {
      DropPresent(ks[1..], k, size);
      assert Drop(ks, k)[1..] == Drop(ks[1..], k);
    }
  }

  /** Every requested key appears exactly once. */
  lemma {:induction false} ByLastRequestIsDistinct(ops: seq<Op>)
    ensures NoRepeats(ByLastRequest(ops))
    ensures KeySet(ByLastRequest(ops)) == set i | 0 <= i < |ops| :: ops[i].key
  {
    if ops != [] {
      var n := |ops| - 1;
      var before, k := ops[..n], ops[n].key;
      ByLastRequestIsDistinct(before);
      DropAbsent(ByLastRequest(before), k);
      var rest := Drop(ByLastRequest(before), k);
      assert ([k] + rest)[1..] == rest;
      var now := set i | 0 <= i < |ops| :: ops[i].key;
      var was := set i | 0 <= i < n :: before[i].key;
      assert now == was + {k} by {
        assert forall i :: 0 <= i < n ==> before[i] == ops[i];
        assert forall i :: 0 <= i < |ops| ==> i == n || ops[i] == before[i];
      }
    }
  }

  lemma {:induction false} KeysMatch(s: seq<Pair>, size: Key -> nat, k: Key)
    requires Sized(s, size)
    ensures Total(s) == Cost(KeySeq(s), size)
    ensures KeySeq(Without(s, k)) == Drop(KeySeq(s), k)
    ensures Keys(s) == KeySet(KeySeq(s))
    ensures Sized(Without(s, k), size)
  {
    if s != [] {
      KeysMatch(s[1..], size, k);
      assert KeySeq(s)[1..] == KeySeq(s[1..]);
      if s[0].key != k {
        assert Without(s, k)[1..] == Without(s[1..], k);
      }
    }
  }

  /** A prefix that is affordable and cannot be extended is the longest one. */
  lemma LongestIfNotExtendable(max: nat, p: seq<Key>, ks: seq<Key>, size: Key -> nat)
    requires p <= ks && Affordable(max, p, size)
    requires p == ks || !Affordable(max, ks[..|p| + 1], size)
    ensures LongestAffordable(max, p, ks, size)
  {
    forall q | q <= ks && Affordable(max, q, size) ensures q <= p {
      if |q| > |p| {
        var e := ks[..|p| + 1];
        assert q == e + q[|e|..];
        KeyConcat(e, q[|e|..], "", size);
      }
    }
  }

  lemma TrimOnKeys(max: nat, s: seq<Pair>, size: Key -> nat)
    requires Sized(s, size)
    ensures Sized(Trim(max, s), size)
    ensures LongestAffordable(max, KeySeq(Trim(max, s)), KeySeq(s), size)
  {
    TrimIsLongestFittingPrefix(max, s);
    var t := Trim(max, s);
    KeysMatch(t, size, "");
    if t != s {
      var e := s[..|t| + 1];
      assert Fits(max, e) ==> e <= t;
      KeysMatch(e, size, "");
      assert KeySeq(e) == KeySeq(s)[..|t| + 1];
    }
    LongestIfNotExtendable(max, KeySeq(t), KeySeq(s), size);
  }

  /** The first key beyond the longest affordable prefix is the one that breaks the
      bound. */
  lemma NextIsTooMuch(max: nat, c: seq<Key>, all: seq<Key>, size: Key -> nat)
    requires LongestAffordable(max, c, all, size) && c != all
    ensures max != 0 && Cost(c, size) + |all[|c|]| + size(all[|c|]) > max
  {
    var y := all[|c|];
    assert all[..|c| + 1] == c + [y] && c + [y] <= all;
    CostOfOneMore(c, y, size);
    assert Affordable(max, c + [y], size) ==> c + [y] <= c;
  }

  lemma SplitAfter(c: seq<Key>, all: seq<Key>, k: Key, size: Key -> nat)
    requires c <= all
    ensures Drop(all, k) == Drop(c, k) + Drop(all[|c|..], k)
    ensures NoRepeats(all) ==> NoRepeats(c) && KeySet(c) !! KeySet(all[|c|..])
  {
    assert all == c + all[|c|..];
    KeyConcat(c, all[|c|..], k, size);
  }

  lemma HitOrder(c: seq<Key>, all: seq<Key>, k: Key, size: Key -> nat)
    requires NoRepeats(all) && c <= all && k in KeySet(c)
    ensures [k] + Drop(all, k) == [k] + Drop(c, k) + all[|c|..]
  {
    var d, rest := Drop(c, k), all[|c|..];
    SplitAfter(c, all, k, size);
    assert k !in KeySet(rest);
    DropAbsent(rest, k);
    assert [k] + (d + rest) == [k] + d + rest;
  }

  lemma HitCost(c: seq<Key>, k: Key, size: Key -> nat)
    requires NoRepeats(c) && k in KeySet(c)
    ensures Cost([k] + Drop(c, k), size) == Cost(c, size)
  {
    DropPresent(c, k, size);
    assert ([k] + Drop(c, k))[1..] == Drop(c, k);
  }

  lemma CostOfOneMore(p: seq<Key>, k: Key, size: Key -> nat)
    ensures Cost(p + [k], size) == Cost(p, size) + |k| + size(k)
  {
    KeyConcat(p, [k], k, size);
    assert [k][1..] == [];
  }

  /** A request for a key inside the longest affordable prefix. */
  lemma HitStep(max: nat, c: seq<Key>, all: seq<Key>, k: Key, size: Key -> nat)
    requires NoRepeats(all) && LongestAffordable(max, c, all, size) && k in KeySet(c)
    ensures LongestAffordable(max, [k] + Drop(c, k), [k] + Drop(all, k), size)
  {
    var p, rest := [k] + Drop(c, k), all[|c|..];
    HitOrder(c, all, k, size);
    SplitAfter(c, all, k, size);
    HitCost(c, k, size);
    if c != all {
      NextIsTooMuch(max, c, all, size);
      assert (p + rest)[..|p| + 1] == p + [rest[0]];
      CostOfOneMore(p, rest[0], size);
    } else {
      assert p + rest == p;
    }
    LongestIfNotExtendable(max, p, p + rest, size);
  }

  lemma MissOrder(c: seq<Key>, all: seq<Key>, k: Key, size: Key -> nat)
    requires c <= all && k !in KeySet(c)
    ensures [k] + Drop(all, k) == [k] + c + Drop(all[|c|..], k)
  {
    SplitAfter(c, all, k, size);
    DropAbsent(c, k);
  }

  /** A request for a key outside it. */
  lemma MissStep(max: nat, c: seq<Key>, c': seq<Key>, all: seq<Key>, k: Key, size: Key -> nat)
    requires LongestAffordable(max, c, all, size) && k !in KeySet(c)
    requires LongestAffordable(max, c', [k] + c, size)
    ensures LongestAffordable(max, c', [k] + Drop(all, k), size)
  {
    MissOrder(c, all, k, size);
    var full := [k] + c + Drop(all[|c|..], k);
    assert [k] + c <= full;
    forall q | q <= full && Affordable(max, q, size) ensures q <= c' {
      MissStaysBelow(max, c, all, k, q, size);
    }
  }

  lemma MissStaysBelow(max: nat, c: seq<Key>, all: seq<Key>, k: Key, q: seq<Key>, size: Key -> nat)
    requires LongestAffordable(max, c, all, size)
    requires q <= [k] + c + Drop(all[|c|..], k) && Affordable(max, q, size)
    ensures q <= [k] + c
  {
    var kc := [k] + c;
    if |q| > |kc| {
      var more := q[|kc|..];
      assert q == kc + more;
      MissBeyond(max, c, all, k, more, size);
    }
  }

  /** No affordable prefix reaches past the requested key and the old prefix. */
  lemma MissBeyond(max: nat, c: seq<Key>, all: seq<Key>, k: Key, rest: seq<Key>, size: Key -> nat)
    requires LongestAffordable(max, c, all, size)
    requires rest != [] && rest <= Drop(all[|c|..], k)
    ensures !Affordable(max, [k] + c + rest, size)
  {
    var tail := all[|c|..];
    assert c == all ==> tail == [];
    NextIsTooMuch(max, c, all, size);
    KeyConcat([k] + c, rest, k, size);
    KeyConcat([k], c, k, size);
    if tail[0] == k {
      assert Cost([k], size) == |k| + size(k);
    } else {
      assert rest[0] == tail[0];
    }
  }

  /** Closed form: after any history of read-through requests with a fixed size per
      key, the cache's keys are the longest prefix, affordable within the bound, of
      the distinct requested keys ordered by last request. */
  lemma {:induction false} ClosedForm(max: nat, ops: seq<Op>, size: Key -> nat)
    requires forall i :: 0 <= i < |ops| ==> ops[i].Read? && |ops[i].value| == size(ops[i].key)
    ensures Sized(Run(max, ops), size)
    ensures LongestAffordable(max, KeySeq(Run(max, ops)), ByLastRequest(ops), size)
  {
    if ops == [] {
      LongestIfNotExtendable(max, [], [], size);
    } else {
      var before, op := ops[..|ops| - 1], ops[|ops| - 1];
      var s, all := Run(max, before), ByLastRequest(before);
      ClosedForm(max, before, size);
      RunKeeps(max, before);
      ByLastRequestIsDistinct(before);
      KeysMatch(s, size, op.key);
      var w := Without(s, op.key);
      if op.key in Keys(s) {
        HitStep(max, KeySeq(s), all, op.key, size);
        assert Run(max, ops)[1..] == w;
        assert KeySeq(Run(max, ops)) == [op.key] + KeySeq(w);
      } else {
        var full := [Pair(op.key, op.value)] + w;
        assert full[1..] == w;
        DropAbsent(KeySeq(s), op.key);
        assert KeySeq(full) == [op.key] + KeySeq(s);
        TrimOnKeys(max, full, size);
        MissStep(max, KeySeq(s), KeySeq(Trim(max, full)), all, op.key, size);
      }
    }
  }

  // ------------------------------------------------------------ what fits

  /** Two entries stay together if and only if their keys and values, counted in bytes, are
      within the bound, or there is none. */
  lemma BothStayIff(max: nat, k1: Key, v1: Value, k2: Key, v2: Value)
    requires k1 != k2
    ensures Run(max, [Add(k1, v1), Add(k2, v2)]) == [Pair(k2, v2), Pair(k1, v1)]
            <==> max == 0 || |k1| + |v1| + |k2| + |v2| <= max
  {
    var p, q := Pair(k1, v1), Pair(k2, v2);
    assert [Add(k1, v1), Add(k2, v2)][..1] == [Add(k1, v1)];
    assert [Add(k1, v1)][..|[Add(k1, v1)]| - 1] == [];
    assert Run(max, [Add(k1, v1)]) == Apply(max, Run(max, []), Add(k1, v1));
    assert [q, p] == [q] + [p] && [p][1..] == [] && [q][1..] == [];
    Concat([q], [p], k2);
    var first := Run(max, [Add(k1, v1)]);
    assert first == Put(max, [], k1, v1) && [p] + [] == [p];
    assert Total([q, p]) == |k1| + |v1| + |k2| + |v2|;
    TrimIsLongestFittingPrefix(max, [p]);
    TrimIsLongestFittingPrefix(max, [q, p]);
    if first == [p] {
      assert Without([p], k2) == [p];
    } else {
      assert first == [] && [q] + [] == [q];
      TrimIsLongestFittingPrefix(max, [q]);
    }
  }
}
