/** The consistent-hash ring of cache/consistenthash/consistenthash.go.

    The hash is an arbitrary function to natural numbers, collisions included. The
    reference definition of a key's owner speaks of the set of ring points and of
    the last peer that claimed a point; the class `Map` is the sorted slice, the
    point map and the binary search. */
module Ring {

  import opened Wrappers

  /** The parameters of `New`. */
  datatype Config = Config(hash: string -> nat, replicas: int)

  /** strconv.Itoa on a non-negative number. */
  function Itoa(n: nat): string {
    if n < 10 then ["0123456789"[n]] else Itoa(n / 10) + ["0123456789"[n % 10]]
  }

  /** The ring point of virtual node `i` of a peer. */
  function PointOf(c: Config, peer: string, i: nat): nat { c.hash(Itoa(i) + peer) }

  /** The points of the first `n` virtual nodes of a peer. */
  function ClaimedUpTo(c: Config, peer: string, n: nat): set<nat> {
    if n == 0 then {} else ClaimedUpTo(c, peer, n - 1) + {PointOf(c, peer, n - 1)}
  }

  lemma {:induction false} ClaimedAt(c: Config, peer: string, n: nat, i: nat)
    requires i < n
    ensures PointOf(c, peer, i) in ClaimedUpTo(c, peer, n)
  {
    if i < n - 1 {
      ClaimedAt(c, peer, n - 1, i);
    }
  }

  function Replicas(c: Config): nat { if c.replicas < 0 then 0 else c.replicas }

  function Claimed(c: Config, peer: string): set<nat> {
    ClaimedUpTo(c, peer, Replicas(c))
  }

  /** All ring points of a history of added peers. */
  function Points(c: Config, peers: seq<string>): set<nat> {
    if peers == [] then {}
    else Points(c, peers[..|peers| - 1]) + Claimed(c, peers[|peers| - 1])
  }

  /** The peer added last among those that claim a point. */
  function LastWriter(c: Config, peers: seq<string>, point: nat): Option<string> {
    if peers == [] then None
    else if point in Claimed(c, peers[|peers| - 1]) then Some(peers[|peers| - 1])
    else LastWriter(c, peers[..|peers| - 1], point)
  }

  /** The least point at or above `x`, or the least point of all when none is. */
  ghost predicate IsCeiling(points: set<nat>, x: nat, p: nat) {
    && p in points
    && (if x <= p then forall q :: q in points && x <= q ==> p <= q
        else forall q :: q in points ==> q < x && p <= q)
  }

  lemma {:induction false} CeilingExists(points: set<nat>, x: nat)
    requires points != {}
    ensures exists p :: IsCeiling(points, x, p)
  {
    var y :| y in points;
    var rest := points - {y};
    if rest == {} {
      assert points == {y};
      assert IsCeiling(points, x, y);
    } else {
      CeilingExists(rest, x);
      var p :| IsCeiling(rest, x, p);
      var best := if x <= p then (if x <= y < p then y else p)
                  else if x <= y then y else if y < p then y else p;
      assert points == rest + {y};
      assert IsCeiling(points, x, best);
    }
  }

  /** The owner of a key, by definition; no owner when the ring is empty. */
  ghost function Owner(c: Config, peers: seq<string>, key: string): string {
    var points := Points(c, peers);
    if points == {} then ""
    else
      CeilingExists(points, c.hash(key));
      var p :| IsCeiling(points, c.hash(key), p);
      match LastWriter(c, peers, p)
      case Some(peer) => peer
      case None => ""
  }

  lemma CeilingUnique(points: set<nat>, x: nat, p: nat, q: nat)
    requires IsCeiling(points, x, p) && IsCeiling(points, x, q)
    ensures p == q
  {
  }

  /** Points and their last writers, and who can be one. */
  lemma {:induction false} WriterFacts(c: Config, peers: seq<string>, point: nat)
    ensures point in Points(c, peers) <==> LastWriter(c, peers, point).Some?
    ensures LastWriter(c, peers, point).Some? ==>
      var w := LastWriter(c, peers, point).value;
      w in peers && point in Claimed(c, w)
    ensures point !in Points(c, peers) ==> forall p :: p in peers ==> point !in Claimed(c, p)
  {
    if peers != [] {
      var front := peers[..|peers| - 1];
      WriterFacts(c, front, point);
      assert peers == front + [peers[|peers| - 1]];
    }
  }

  lemma {:induction false} AppendFacts(c: Config, a: seq<string>, b: seq<string>, point: nat)
    ensures Points(c, a + b) == Points(c, a) + Points(c, b)
    ensures LastWriter(c, a + b, point) ==
      if LastWriter(c, b, point).Some? then LastWriter(c, b, point) else LastWriter(c, a, point)
  {
    if b == [] {
      assert a + b == a;
    } else {
      var front := b[..|b| - 1];
      assert (a + b)[..|a + b| - 1] == a + front;
      AppendFacts(c, a, front, point);
    }
  }

  /** The owner is the last writer of the ceiling of the key's hash. */
  lemma OwnerIs(c: Config, peers: seq<string>, key: string, p: nat)
    requires IsCeiling(Points(c, peers), c.hash(key), p)
    ensures LastWriter(c, peers, p) == Some(Owner(c, peers, key))
    ensures Owner(c, peers, key) in peers
  {
    var x := c.hash(key);
    var q :| IsCeiling(Points(c, peers), x, q) &&
             Owner(c, peers, key) == (match LastWriter(c, peers, q)
                                      case Some(peer) => peer
                                      case None => "");
    CeilingUnique(Points(c, peers), x, p, q);
    WriterFacts(c, peers, p);
  }

  // ------------------------------------------------------ the ring by labels

  /** One of the peer's labels, its name behind the number of a virtual node, hashes to
      the point. */
  ghost predicate Labels(c: Config, peer: string, point: nat) {
    exists i: nat :: i < c.replicas && c.hash(Itoa(i) + peer) == point
  }

  lemma ClaimedIff(c: Config, peer: string, point: nat)
    ensures point in Claimed(c, peer) <==> Labels(c, peer, point)
  {
    if point in Claimed(c, peer) {
      var i := ClaimedBy(c, peer, Replicas(c), point);
    }
    if Labels(c, peer, point) {
      var i: nat :| i < c.replicas && c.hash(Itoa(i) + peer) == point;
      ClaimedAt(c, peer, Replicas(c), i);
    }
  }

  /** The label behind a ring point. */
  lemma LabelOf(c: Config, peers: seq<string>, point: nat) returns (j: nat, i: nat)
    requires point in Points(c, peers)
    ensures j < |peers| && i < c.replicas && c.hash(Itoa(i) + peers[j]) == point
  {
    WriterFacts(c, peers, point);
    var w := LastWriter(c, peers, point).value;
    j :| 0 <= j < |peers| && peers[j] == w;
    i := ClaimedBy(c, w, Replicas(c), point);
  }

  lemma LabelIsPoint(c: Config, peers: seq<string>, p: string, i: nat)
    requires p in peers && i < c.replicas
    ensures c.hash(Itoa(i) + p) in Points(c, peers)
  {
    ClaimedAt(c, p, Replicas(c), i);
    WriterFacts(c, peers, PointOf(c, p, i));
  }

  /** Some label of an added peer hashes to the point. */
  ghost predicate OnRing(c: Config, peers: seq<string>, point: nat) {
    exists p, i: nat :: p in peers && i < c.replicas && point == c.hash(Itoa(i) + p)
  }

  /** The ring points are the hashes of all labels of the added peers, `replicas` each. */
  lemma PointsIff(c: Config, peers: seq<string>, point: nat)
    ensures point in Points(c, peers) <==> OnRing(c, peers, point)
  {
    if point in Points(c, peers) {
      var j, i := LabelOf(c, peers, point);
      assert peers[j] in peers;
    }
    forall p, i: nat | p in peers && i < c.replicas && point == c.hash(Itoa(i) + p)
      ensures point in Points(c, peers)
    {
      LabelIsPoint(c, peers, p, i);
    }
  }

  /** Peer k is the last of the added ones with a label at the point. */
  ghost predicate LastToLabel(c: Config, peers: seq<string>, point: nat, k: nat) {
    k < |peers| && Labels(c, peers[k], point) && forall j :: k < j < |peers| ==> !Labels(c, peers[j], point)
  }

  /** The point map names the last peer with a label at the point. */
  lemma {:induction false} LastWriterIff(c: Config, peers: seq<string>, point: nat, w: string)
    ensures LastWriter(c, peers, point) == Some(w) <==>
              exists k :: 0 <= k < |peers| && peers[k] == w && LastToLabel(c, peers, point, k)
  {
    if peers != [] {
      var front, last := peers[..|peers| - 1], peers[|peers| - 1];
      ClaimedIff(c, last, point);
      if Labels(c, last, point) {
        assert LastToLabel(c, peers, point, |peers| - 1);
      } else {
        LastWriterIff(c, front, point, w);
        forall k | 0 <= k < |front| ensures LastToLabel(c, peers, point, k) <==> LastToLabel(c, front, point, k) {
          assert forall j :: k < j < |front| ==> peers[j] == front[j];
        }
        if LastWriter(c, front, point) == Some(w) {
          var k :| 0 <= k < |front| && front[k] == w && LastToLabel(c, front, point, k);
          assert LastToLabel(c, peers, point, k);
        }
      }
    }
  }

  /** Seen from x, a point p is reached no later than a point q on the way round. */
  predicate NoLater(x: nat, p: nat, q: nat) {
    if x <= p then x <= q ==> p <= q else q < x && p <= q
  }

  /** Label i of peer k is where a key with hash x ends up: no label of any peer is reached
      before it, and no later peer has a label there. */
  ghost predicate Reached(c: Config, peers: seq<string>, x: nat, k: nat, i: nat) {
    && k < |peers| && i < c.replicas
    && (forall j, l: nat :: 0 <= j < |peers| && l < c.replicas ==>
          NoLater(x, c.hash(Itoa(i) + peers[k]), c.hash(Itoa(l) + peers[j])))
    && (forall j, l: nat :: k < j < |peers| && l < c.replicas ==>
          c.hash(Itoa(l) + peers[j]) != c.hash(Itoa(i) + peers[k]))
  }

  lemma ReachedIsCeiling(c: Config, peers: seq<string>, x: nat, k: nat, i: nat)
    requires Reached(c, peers, x, k, i)
    ensures IsCeiling(Points(c, peers), x, c.hash(Itoa(i) + peers[k]))
  {
    var point := c.hash(Itoa(i) + peers[k]);
    LabelIsPoint(c, peers, peers[k], i);
    forall q | q in Points(c, peers) ensures NoLater(x, point, q) {
      var j, l := LabelOf(c, peers, q);
    }
  }

  /** A key is owned by the peer whose label it ends up at. */
  lemma ReachedOwns(c: Config, peers: seq<string>, key: string, k: nat, i: nat)
    requires Reached(c, peers, c.hash(key), k, i)
    ensures Owner(c, peers, key) == peers[k]
  {
    var point := c.hash(Itoa(i) + peers[k]);
    ReachedIsCeiling(c, peers, c.hash(key), k, i);
    OwnerIs(c, peers, key, point);
    assert LastToLabel(c, peers, point, k);
    LastWriterIff(c, peers, point, peers[k]);
  }

  /** With peers and virtual nodes every key ends up at a label; otherwise no peer owns it. */
  lemma OwnerByLabels(c: Config, peers: seq<string>, key: string)
    ensures peers == [] || c.replicas <= 0 ==> Owner(c, peers, key) == ""
    ensures peers != [] && c.replicas > 0 ==>
              exists k: nat, i: nat :: Reached(c, peers, c.hash(key), k, i) && Owner(c, peers, key) == peers[k]
  {
    var x, points := c.hash(key), Points(c, peers);
    if peers == [] || c.replicas <= 0 {
      forall point ensures point !in points {
        PointsIff(c, peers, point);
      }
      assert points == {};
    } else {
      LabelIsPoint(c, peers, peers[0], 0);
      CeilingExists(points, x);
      var point :| IsCeiling(points, x, point);
      OwnerIs(c, peers, key, point);
      LastWriterIff(c, peers, point, Owner(c, peers, key));
      var k :| 0 <= k < |peers| && peers[k] == Owner(c, peers, key) && LastToLabel(c, peers, point, k);
      var i := CeilingIsReached(c, peers, x, point, k);
    }
  }

  lemma CeilingIsReached(c: Config, peers: seq<string>, x: nat, point: nat, k: nat) returns (i: nat)
    requires IsCeiling(Points(c, peers), x, point) && LastToLabel(c, peers, point, k)
    ensures Reached(c, peers, x, k, i)
  {
    i :| i < c.replicas && c.hash(Itoa(i) + peers[k]) == point;
    forall j, l: nat | 0 <= j < |peers| && l < c.replicas
      ensures NoLater(x, point, c.hash(Itoa(l) + peers[j]))
    {
      LabelIsPoint(c, peers, peers[j], l);
    }
    forall j, l: nat | k < j < |peers| && l < c.replicas ensures c.hash(Itoa(l) + peers[j]) != point {
      assert !Labels(c, peers[j], point);
    }
  }

  // ----------------------------------------------------- minimal disruption

  /** Adding peers moves a key only to one of the added peers, whatever the hash. */
  lemma MinimalDisruption(c: Config, peers: seq<string>, more: seq<string>, key: string)
    ensures Owner(c, peers + more, key) == Owner(c, peers, key)
         || Owner(c, peers + more, key) in more
  {
    var x := c.hash(key);
    var all := Points(c, peers + more);
    AppendFacts(c, peers, more, 0);
    if all != {} {
      CeilingExists(all, x);
      var p :| IsCeiling(all, x, p);
      OwnerIs(c, peers + more, key, p);
      AppendFacts(c, peers, more, p);
      WriterFacts(c, more, p);
      if p !in Points(c, more) {
        assert IsCeiling(Points(c, peers), x, p);
        OwnerIs(c, peers, key, p);
      }
    }
  }

  // ---------------------------------------------------------- order of adding

  /** No ring point is claimed by two different peers. */
  ghost predicate NoCollisions(c: Config, peers: seq<string>) {
    forall p, q, point ::
      p in peers && q in peers && point in Claimed(c, p) && point in Claimed(c, q) ==> p == q
  }

  ghost predicate SamePeers(a: seq<string>, b: seq<string>) {
    forall p :: p in a <==> p in b
  }

  lemma SamePoints(c: Config, a: seq<string>, b: seq<string>)
    requires SamePeers(a, b)
    ensures Points(c, a) == Points(c, b)
  {
    forall point ensures point in Points(c, a) <==> point in Points(c, b) {
      WriterFacts(c, a, point);
      WriterFacts(c, b, point);
    }
  }

  /** Without collisions the owner does not depend on the order of adding. */
  lemma OrderIrrelevant(c: Config, a: seq<string>, b: seq<string>, key: string)
    requires SamePeers(a, b) && NoCollisions(c, a)
    ensures Owner(c, a, key) == Owner(c, b, key)
  {
    SamePoints(c, a, b);
    if Points(c, a) != {} {
      CeilingExists(Points(c, a), c.hash(key));
      var p :| IsCeiling(Points(c, a), c.hash(key), p);
      OwnerIs(c, a, key, p);
      OwnerIs(c, b, key, p);
      WriterFacts(c, a, p);
      WriterFacts(c, b, p);
    }
  }

  lemma {:induction false} ClaimedBy(c: Config, peer: string, n: nat, point: nat) returns (i: nat)
    requires point in ClaimedUpTo(c, peer, n)
    ensures i < n && PointOf(c, peer, i) == point
  {
    if point == PointOf(c, peer, n - 1) {
      i := n - 1;
    } else {
      i := ClaimedBy(c, peer, n - 1, point);
    }
  }

  /** The peers in an order that ends with a given one. */
  lemma EndingWith(peers: seq<string>, w: string) returns (a: seq<string>)
    requires w in peers
    ensures multiset(a + [w]) == multiset(peers)
  {
    var i :| 0 <= i < |peers| && peers[i] == w;
    a := peers[..i] + peers[i + 1..];
    assert peers == peers[..i] + [w] + peers[i + 1..];
  }

  /** The peer added last owns the keys that hash to its points. */
  lemma LastOwnsItsPoints(c: Config, a: seq<string>, w: string, key: string)
    requires c.hash(key) in Claimed(c, w)
    ensures Owner(c, a + [w], key) == w
  {
    var point := c.hash(key);
    assert (a + [w])[..|a|] == a;
    assert IsCeiling(Points(c, a + [w]), point, point);
    OwnerIs(c, a + [w], key, point);
  }

  /** All orders of adding the peers give every key the same owner. */
  ghost predicate OrderIndependent(c: Config, peers: seq<string>) {
    forall a, b, key :: multiset(a) == multiset(peers) && multiset(b) == multiset(peers) ==>
      Owner(c, a, key) == Owner(c, b, key)
  }

  lemma SamePermuted(a: seq<string>, peers: seq<string>)
    requires multiset(a) == multiset(peers)
    ensures SamePeers(a, peers)
  {
    forall p ensures p in a <==> p in peers {
      assert p in multiset(a) <==> p in multiset(peers);
    }
  }

  /** With a collision two orders disagree about the key that is the colliding label. */
  lemma OrderMatters(c: Config, peers: seq<string>, p: string, q: string, point: nat)
    requires p in peers && q in peers && p != q && point in Claimed(c, p) && point in Claimed(c, q)
    ensures !OrderIndependent(c, peers)
  {
    var i := ClaimedBy(c, p, Replicas(c), point);
    var key := Itoa(i) + p;
    var a := EndingWith(peers, p);
    var b := EndingWith(peers, q);
    LastOwnsItsPoints(c, a, p, key);
    LastOwnsItsPoints(c, b, q, key);
  }

  /** The order of adding is irrelevant if and only if no point is claimed twice. */
  lemma OrderIrrelevantIff(c: Config, peers: seq<string>)
    ensures OrderIndependent(c, peers) <==> NoCollisions(c, peers)
  {
    if NoCollisions(c, peers) {
      forall a, b, key | multiset(a) == multiset(peers) && multiset(b) == multiset(peers)
        ensures Owner(c, a, key) == Owner(c, b, key)
      {
        SamePermuted(a, peers);
        SamePermuted(b, peers);
        OrderIrrelevant(c, a, b, key);
      }
    } else {
      var p, q, point :| p in peers && q in peers && point in Claimed(c, p) && point in Claimed(c, q) && p != q;
      OrderMatters(c, peers, p, q, point);
    }
  }

  // ------------------------------------------- collisions that no hash can avoid

  predicate AllDigits(d: string) {
    forall i :: 0 <= i < |d| ==> '0' <= d[i] <= '9'
  }

  function DigitValue(c: char): nat
    requires '0' <= c <= '9'
  {
    (c - '0') as nat
  }

  /** The number written with the digits `d` behind those of n. */
  function Extend(n: nat, d: string): nat
    requires AllDigits(d)
    decreases |d|
  {
    if d == "" then n
    else 10 * Extend(n, d[..|d| - 1]) + DigitValue(d[|d| - 1])
  }

  lemma DigitChar(v: nat)
    requires v < 10
    ensures '0' <= "0123456789"[v] <= '9' && DigitValue("0123456789"[v]) == v
  {
  }

  lemma CharDigit(c: char)
    requires '0' <= c <= '9'
    ensures DigitValue(c) < 10 && "0123456789"[DigitValue(c)] == c
  {
    DigitChar(DigitValue(c));
  }

  /** Decimal digits, no leading zero but in "0" itself. */
  lemma {:induction false} ItoaFacts(n: nat)
    ensures Itoa(n) != "" && AllDigits(Itoa(n))
    ensures Itoa(n)[0] == '0' <==> n == 0
    ensures n < 10 <==> |Itoa(n)| == 1
  {
    DigitChar(n % 10);
    if n >= 10 {
      ItoaFacts(n / 10);
    }
  }

  lemma ItoaAppend(n: nat, c: char)
    requires n > 0 && '0' <= c <= '9'
    ensures Itoa(10 * n + DigitValue(c)) == Itoa(n) + [c]
  {
    CharDigit(c);
  }

  lemma OneBehind(a: string, d: string)
    requires d != ""
    ensures a + d[..|d| - 1] + [d[|d| - 1]] == a + d
  {
  }

  lemma {:induction false} ItoaExtend(n: nat, d: string)
    requires n > 0 && AllDigits(d)
    ensures Extend(n, d) >= n && Itoa(Extend(n, d)) == Itoa(n) + d
    decreases |d|
  {
    if d == "" {
      assert Itoa(n) + d == Itoa(n);
    } else {
      var front, c := d[..|d| - 1], d[|d| - 1];
      ItoaExtend(n, front);
      ItoaAppend(Extend(n, front), c);
      OneBehind(Itoa(n), d);
    }
  }

  lemma {:induction false} ExtendMonotone(a: nat, b: nat, d: string)
    requires a <= b && AllDigits(d)
    ensures Extend(a, d) <= Extend(b, d)
    decreases |d|
  {
    if d != "" {
      ExtendMonotone(a, b, d[..|d| - 1]);
    }
  }

  lemma {:induction false} ExtendBehind(a: string, c: char)
    requires AllDigits(a) && '0' <= c <= '9'
    ensures AllDigits(a + [c]) && Extend(0, a + [c]) == 10 * Extend(0, a) + DigitValue(c)
  {
    assert (a + [c])[..|a|] == a;
  }

  /** The digits of n, read as a decimal number, are n. */
  lemma {:induction false} ItoaReads(n: nat)
    ensures AllDigits(Itoa(n)) && Extend(0, Itoa(n)) == n
  {
    DigitChar(n % 10);
    ItoaFacts(n);
    if n < 10 {
      assert Itoa(n) == "" + Itoa(n);
      ExtendBehind("", Itoa(n)[0]);
    } else {
      ItoaReads(n / 10);
      ExtendBehind(Itoa(n / 10), "0123456789"[n % 10]);
    }
  }

  lemma {:induction false} ItoaInjective(m: nat, n: nat)
    requires Itoa(m) == Itoa(n)
    ensures m == n
  {
    ItoaFacts(m);
    ItoaFacts(n);
    DigitChar(m % 10);
    DigitChar(n % 10);
    if m >= 10 {
      var a, b := Itoa(m), Itoa(n);
      assert a[..|a| - 1] == Itoa(m / 10) && b[..|b| - 1] == Itoa(n / 10);
      assert a[|a| - 1] == b[|b| - 1];
      ItoaInjective(m / 10, n / 10);
    }
  }

  /** Peers that claim a point under the same label, whatever the hash: one name is the
      other with digits in front, and 1 followed by those digits is a virtual node. */
  predicate SharesLabel(p: string, q: string, replicas: nat) {
    Prefixed(p, q, replicas) || Prefixed(q, p, replicas)
  }

  predicate Prefixed(p: string, q: string, replicas: nat) {
    && |p| < |q| && q[|q| - |p|..] == p
    && AllDigits(q[..|q| - |p|]) && Extend(1, q[..|q| - |p|]) < replicas
  }

  lemma PrefixedShares(p: string, q: string, replicas: nat)
    requires Prefixed(p, q, replicas)
    ensures var d := q[..|q| - |p|];
            Itoa(Extend(1, d)) + p == Itoa(1) + q && Extend(1, d) < replicas && 1 < replicas
  {
    var d := q[..|q| - |p|];
    ItoaExtend(1, d);
    assert q == d + p;
    assert Itoa(1) + d + p == Itoa(1) + (d + p);
  }

  /** Equal labels of a shorter and a longer name. */
  lemma LabelsPrefix(p: string, q: string, i: nat, j: nat, replicas: nat)
    requires Itoa(i) + p == Itoa(j) + q && |p| < |q| && i < replicas
    ensures Prefixed(p, q, replicas)
  {
    var text, d := Itoa(i) + p, q[..|q| - |p|];
    ItoaFacts(i);
    ItoaFacts(j);
    assert text[|Itoa(j)|..] == q && text[|text| - |p|..] == p;
    assert q[|q| - |p|..] == text[|text| - |p|..];
    assert Itoa(i) == text[..|Itoa(i)|] && Itoa(j) == text[..|Itoa(j)|];
    assert Itoa(i) == Itoa(j) + d;
    assert AllDigits(d) by {
      forall k | 0 <= k < |d| ensures '0' <= d[k] <= '9' {
        assert d[k] == Itoa(i)[|Itoa(j)| + k];
      }
    }
    assert Itoa(i)[0] == Itoa(j)[0];
    ItoaExtend(j, d);
    ItoaInjective(i, Extend(j, d));
    ExtendMonotone(1, j, d);
  }

  lemma SameLengthLabels(p: string, q: string, i: nat, j: nat)
    requires Itoa(i) + p == Itoa(j) + q && |p| == |q|
    ensures p == q
  {
    var text := Itoa(i) + p;
    assert text[|Itoa(i)|..] == p && text[|Itoa(j)|..] == q;
  }

  /** Two different names share a label if and only if they are such. */
  lemma SharedLabelIff(p: string, q: string, replicas: nat)
    requires p != q
    ensures SharesLabel(p, q, replicas) <==>
              exists i: nat, j: nat :: i < replicas && j < replicas && Itoa(i) + p == Itoa(j) + q
  {
    if Prefixed(p, q, replicas) {
      PrefixedShares(p, q, replicas);
    } else if Prefixed(q, p, replicas) {
      PrefixedShares(q, p, replicas);
    }
    forall i: nat, j: nat | i < replicas && j < replicas && Itoa(i) + p == Itoa(j) + q
      ensures SharesLabel(p, q, replicas)
    {
      if |p| < |q| {
        LabelsPrefix(p, q, i, j, replicas);
      } else if |q| < |p| {
        LabelsPrefix(q, p, j, i, replicas);
      } else {
        SameLengthLabels(p, q, i, j);
      }
    }
  }

  /** No two of the peers share a label. */
  ghost predicate NoSharedLabels(peers: seq<string>, replicas: nat) {
    forall p, q :: p in peers && q in peers && p != q ==> !SharesLabel(p, q, replicas)
  }

  /** The hash tells different labels of the peers' virtual nodes apart. */
  ghost predicate SeparatesLabels(c: Config, peers: seq<string>) {
    forall p, q, i: nat, j: nat ::
      p in peers && q in peers && i < Replicas(c) && j < Replicas(c) && PointOf(c, p, i) == PointOf(c, q, j) ==>
        Itoa(i) + p == Itoa(j) + q
  }

  /** Names that share a label collide under every hash. */
  lemma SharedLabelCollides(c: Config, peers: seq<string>, p: string, q: string)
    requires p in peers && q in peers && p != q && SharesLabel(p, q, Replicas(c))
    ensures !NoCollisions(c, peers)
  {
    SharedLabelIff(p, q, Replicas(c));
    var i: nat, j: nat :| i < Replicas(c) && j < Replicas(c) && Itoa(i) + p == Itoa(j) + q;
    ClaimedAt(c, p, Replicas(c), i);
    ClaimedAt(c, q, Replicas(c), j);
    var point := PointOf(c, p, i);
    assert point == PointOf(c, q, j);
    assert point in Claimed(c, p) && point in Claimed(c, q);
  }

  lemma CollisionSharesLabel(c: Config, peers: seq<string>, p: string, q: string, point: nat)
    requires SeparatesLabels(c, peers) && p in peers && q in peers && p != q
    requires point in Claimed(c, p) && point in Claimed(c, q)
    ensures SharesLabel(p, q, Replicas(c))
  {
    var i := ClaimedBy(c, p, Replicas(c), point);
    var j := ClaimedBy(c, q, Replicas(c), point);
    assert PointOf(c, p, i) == PointOf(c, q, j);
    assert Itoa(i) + p == Itoa(j) + q;
    SharedLabelIff(p, q, Replicas(c));
  }

  /** Under a hash that tells labels apart, no point is claimed by two peers, and so the
      order of adding is irrelevant, if and only if no two peers share a label: a condition
      on the names alone. */
  lemma NoCollisionsIff(c: Config, peers: seq<string>)
    requires SeparatesLabels(c, peers)
    ensures NoCollisions(c, peers) <==> NoSharedLabels(peers, Replicas(c))
    ensures OrderIndependent(c, peers) <==> NoSharedLabels(peers, Replicas(c))
  {
    OrderIrrelevantIff(c, peers);
    if NoCollisions(c, peers) {
      forall p, q | p in peers && q in peers && p != q ensures !SharesLabel(p, q, Replicas(c)) {
        if SharesLabel(p, q, Replicas(c)) {
          SharedLabelCollides(c, peers, p, q);
        }
      }
    }
    if NoSharedLabels(peers, Replicas(c)) {
      forall p, q, point | p in peers && q in peers && point in Claimed(c, p) && point in Claimed(c, q)
        ensures p == q
      {
        if p != q {
          CollisionSharesLabel(c, peers, p, q, point);
        }
      }
    }
  }

  /** With the pool's 50 virtual nodes: one name is a digit followed by the other, as with
      "a" and "1a". */
  lemma FiftyReplicas(p: string, q: string)
    ensures Prefixed(p, q, 50) <==> |q| == |p| + 1 && q[1..] == p && '0' <= q[0] <= '9'
  {
    if |p| < |q| {
      var d := q[..|q| - |p|];
      if AllDigits(d) {
        assert d[..1] == [d[0]] && [d[0]][..0] == "";
        if |d| == 1 {
          assert Extend(1, d) == 10 + DigitValue(d[0]);
        } else {
          ExtendIsLong(d);
        }
      }
    }
  }

  lemma ExtendIsLong(d: string)
    requires AllDigits(d) && |d| >= 2
    ensures Extend(1, d) >= 100
  {
    var front := d[..|d| - 1];
    ItoaExtend(1, front[..|front| - 1]);
    assert Extend(1, front) >= 10;
  }

  // ------------------------------------------------------------ an example ring

  /** A hash that reads its text as a decimal number, as strconv.Atoi does. */
  function Atoi(s: string): nat { if AllDigits(s) then Extend(0, s) else 0 }

  /** Three virtual nodes and that hash. */
  const SAMPLE := Config(Atoi, 3)

  predicate OneDigit(peer: string) { |peer| == 1 && '0' <= peer[0] <= '9' }

  /** Where label i of a one-digit peer lies. */
  function Spot(peer: string, i: nat): nat
    requires OneDigit(peer)
  {
    10 * i + DigitValue(peer[0])
  }

  lemma SpotIs(peer: string, i: nat)
    requires OneDigit(peer)
    ensures Atoi(Itoa(i) + peer) == Spot(peer, i)
  {
    assert peer == [peer[0]];
    ItoaReads(i);
    ExtendBehind(Itoa(i), peer[0]);
  }

  /** `Reached` for different one-digit peers. */
  ghost predicate SpotReached(peers: seq<string>, x: nat, k: nat, i: nat) {
    && k < |peers| && i < 3 && (forall j :: 0 <= j < |peers| ==> OneDigit(peers[j]))
    && (forall j :: k < j < |peers| ==> forall l: nat :: l < 3 ==> Spot(peers[j], l) != Spot(peers[k], i))
    && (forall j :: 0 <= j < |peers| ==> forall l: nat :: l < 3 ==> NoLater(x, Spot(peers[k], i), Spot(peers[j], l)))
  }

  lemma SpotOwns(peers: seq<string>, key: string, k: nat, i: nat)
    requires SpotReached(peers, Atoi(key), k, i)
    ensures Owner(SAMPLE, peers, key) == peers[k]
  {
    SpotIs(peers[k], i);
    forall j, l: nat | 0 <= j < |peers| && l < 3
      ensures SAMPLE.hash(Itoa(l) + peers[j]) == Spot(peers[j], l)
    {
      SpotIs(peers[j], l);
    }
    ReachedOwns(SAMPLE, peers, key, k, i);
  }

  lemma TwoDigits(a: string, b: string)
    requires OneDigit(a) && OneDigit(b)
    ensures Atoi(a + b) == 10 * DigitValue(a[0]) + DigitValue(b[0]) && Atoi(b) == DigitValue(b[0])
  {
    CharDigit(a[0]);
    assert a == Itoa(DigitValue(a[0]));
    SpotIs(b, DigitValue(a[0]));
    assert b == "" + [b[0]];
    ExtendBehind("", b[0]);
  }

  lemma SampleHashes()
    ensures Atoi("2") == 2 && Atoi("11") == 11 && Atoi("23") == 23 && Atoi("27") == 27
  {
    TwoDigits("1", "1");
    TwoDigits("2", "3");
    TwoDigits("2", "7");
    TwoDigits("2", "2");
    assert "1" + "1" == "11" && "2" + "3" == "23" && "2" + "7" == "27";
  }

  /** The spots of "6", "4" and "2". */
  lemma SampleSpots(x: nat, k: nat, i: nat)
    requires k < 3 && i < 3
    requires forall l: nat :: l < 3 ==>
               && NoLater(x, 10 * i + 6 - 2 * k, 10 * l + 6) && NoLater(x, 10 * i + 6 - 2 * k, 10 * l + 4)
               && NoLater(x, 10 * i + 6 - 2 * k, 10 * l + 2)
    ensures SpotReached(["6", "4", "2"], x, k, i)
  {
    var peers := ["6", "4", "2"];
    forall j | 0 <= j < 3 ensures OneDigit(peers[j]) && DigitValue(peers[j][0]) == 6 - 2 * j {
    }
  }

  /** Peer d of the sample has its labels at d, 10 + d and 20 + d, so with "6", "4" and "2"
      the keys "2", "11", "23" and "27" belong to "2", "2", "4" and "2", the last by going
      round. */
  lemma SampleOwners()
    ensures Owner(SAMPLE, ["6", "4", "2"], "2") == "2" && Owner(SAMPLE, ["6", "4", "2"], "11") == "2"
    ensures Owner(SAMPLE, ["6", "4", "2"], "23") == "4" && Owner(SAMPLE, ["6", "4", "2"], "27") == "2"
  {
    var peers := ["6", "4", "2"];
    SampleHashes();
    SampleSpots(2, 2, 0);
    SampleSpots(11, 2, 1);
    SampleSpots(23, 1, 2);
    SampleSpots(27, 2, 0);
    SpotOwns(peers, "2", 2, 0);
    SpotOwns(peers, "11", 2, 1);
    SpotOwns(peers, "23", 1, 2);
    SpotOwns(peers, "27", 2, 0);
  }

  // --------------------------------------------------------------- the map

  ghost predicate Sorted(s: seq<nat>) {
    forall i, j :: 0 <= i < j < |s| ==> s[i] <= s[j]
  }

  predicate Ascending(s: seq<nat>) {
    |s| <= 1 || (s[0] <= s[1] && Ascending(s[1..]))
  }

  lemma {:induction false} AscendingIsSorted(s: seq<nat>)
    requires Ascending(s)
    ensures Sorted(s)
  {
    if |s| > 1 {
      AscendingIsSorted(s[1..]);
      forall i, j | 0 <= i < j < |s| ensures s[i] <= s[j] {
        assert s[j] == s[1..][j - 1];
        if i > 0 {
          assert s[i] == s[1..][i - 1];
        }
      }
    }
  }

  function Insert(x: nat, s: seq<nat>): (r: seq<nat>)
    requires Ascending(s)
    ensures Ascending(r) && multiset(r) == multiset(s) + multiset{x}
    ensures r != [] && (r[0] == x || (s != [] && r[0] == s[0]))
  {
    if s == [] || x <= s[0] then
      assert ([x] + s)[1..] == s;
      [x] + s
    else
      assert s == [s[0]] + s[1..];
      var t := Insert(x, s[1..]);
      assert ([s[0]] + t)[1..] == t;
      [s[0]] + t
  }

  /** sort.Ints */
  function Sort(s: seq<nat>): (r: seq<nat>)
    ensures Ascending(r) && multiset(r) == multiset(s)
  {
    if s == [] then []
    else
      assert s == [s[0]] + s[1..];
      Insert(s[0], Sort(s[1..]))
  }

  ghost predicate SameElements(s: seq<nat>, points: set<nat>) {
    && (forall i :: 0 <= i < |s| ==> s[i] in points)
    && (forall p :: p in points ==> p in s)
  }

  lemma AppendElement(s: seq<nat>, points: set<nat>, x: nat)
    requires SameElements(s, points)
    ensures SameElements(s + [x], points + {x})
  {
  }

  lemma SameMultiset(s: seq<nat>, t: seq<nat>, points: set<nat>)
    requires SameElements(s, points) && multiset(s) == multiset(t)
    ensures SameElements(t, points)
  {
    forall i | 0 <= i < |t| ensures t[i] in points {
      assert t[i] in multiset(s);
    }
    forall p | p in points ensures p in t {
      assert p in multiset(s);
    }
  }

  /** The ring after all of `peers` and the first `n` virtual nodes of one more. */
  ghost predicate Filled(c: Config, keys: seq<nat>, hashMap: map<nat, string>,
                         peers: seq<string>, peer: string, n: nat)
  {
    var part := ClaimedUpTo(c, peer, n);
    && SameElements(keys, Points(c, peers) + part)
    && hashMap.Keys == Points(c, peers) + part
    && (forall p :: p in hashMap ==>
          if p in part then hashMap[p] == peer
          else LastWriter(c, peers, p) == Some(hashMap[p]))
  }

  lemma FillStep(c: Config, keys: seq<nat>, hashMap: map<nat, string>,
                 peers: seq<string>, peer: string, n: nat)
    requires Filled(c, keys, hashMap, peers, peer, n)
    ensures var hash := PointOf(c, peer, n);
            Filled(c, keys + [hash], hashMap[hash := peer], peers, peer, n + 1)
  {
    var hash, before := PointOf(c, peer, n), Points(c, peers) + ClaimedUpTo(c, peer, n);
    AppendElement(keys, before, hash);
    assert before + {hash} == Points(c, peers) + ClaimedUpTo(c, peer, n + 1);
  }

  lemma FillPeer(c: Config, keys: seq<nat>, hashMap: map<nat, string>, peers: seq<string>, peer: string)
    requires Filled(c, keys, hashMap, peers, peer, Replicas(c))
    ensures Filled(c, keys, hashMap, peers + [peer], "", 0)
  {
    assert (peers + [peer])[..|peers|] == peers;
    assert Points(c, peers + [peer]) + {} == Points(c, peers) + Claimed(c, peer);
  }

  lemma SortKeeps(c: Config, keys: seq<nat>, hashMap: map<nat, string>, peers: seq<string>)
    requires Filled(c, keys, hashMap, peers, "", 0)
    ensures Sorted(Sort(keys)) && Filled(c, Sort(keys), hashMap, peers, "", 0)
  {
    SameMultiset(keys, Sort(keys), Points(c, peers) + {});
    AscendingIsSorted(Sort(keys));
  }

  /** Keys and point map hold the labels of the peers: the keys are the hashes of all of
      them, and each is mapped to the last peer with a label there. */
  ghost predicate Holds(c: Config, keys: seq<nat>, hashMap: map<nat, string>, peers: seq<string>) {
    && (forall point :: point in keys <==> OnRing(c, peers, point))
    && (forall point :: point in hashMap <==> OnRing(c, peers, point))
    && (forall point, k :: point in hashMap && 0 <= k < |peers| && LastToLabel(c, peers, point, k) ==>
          hashMap[point] == peers[k])
  }

  lemma FilledHolds(c: Config, keys: seq<nat>, hashMap: map<nat, string>, peers: seq<string>)
    requires Filled(c, keys, hashMap, peers, "", 0)
    ensures Holds(c, keys, hashMap, peers)
  {
    forall point ensures point in Points(c, peers) <==> OnRing(c, peers, point) {
      PointsIff(c, peers, point);
    }
    assert forall point :: point in keys <==> point in Points(c, peers);
    forall point, k | point in hashMap && 0 <= k < |peers| && LastToLabel(c, peers, point, k)
      ensures hashMap[point] == peers[k]
    {
      LastWriterIff(c, peers, point, peers[k]);
    }
  }

  lemma OneMore(before: seq<string>, peers: seq<string>, j: nat)
    requires j < |peers|
    ensures before + peers[..j] + [peers[j]] == before + peers[..j + 1]
  {
  }

  class Map {
    const config: Config
    var keys: seq<nat>            // sorted between calls
    var hashMap: map<nat, string> // ring point to peer
    ghost var added: seq<string>  // every peer ever added, in order

    ghost predicate Valid()
      reads this
    {
      Sorted(keys) && Filled(config, keys, hashMap, added, "", 0)
    }

    constructor (config: Config)
      ensures Valid() && this.config == config && added == []
    {
      this.config := config;
      keys, hashMap, added := [], map[], [];
    }

    method Add(peers: seq<string>)
      requires Valid()
      modifies this
      ensures Valid() && added == old(added) + peers
      ensures Holds(config, keys, hashMap, added)
    {
      AddPeers(peers);
      SortKeeps(config, keys, hashMap, added);
      keys := Sort(keys);
      FilledHolds(config, keys, hashMap, added);
    }

    /** The outer loop of `Add`. */
    method AddPeers(peers: seq<string>)
      requires Filled(config, keys, hashMap, added, "", 0)
      modifies this
      ensures Filled(config, keys, hashMap, added, "", 0) && added == old(added) + peers
    {
      ghost var before := added;
      for j := 0 to |peers|
        invariant Filled(config, keys, hashMap, added, "", 0)
        invariant added == before + peers[..j]
      {
        AddPeer(peers[j]);
        OneMore(before, peers, j);
      }
      assert peers[..|peers|] == peers;
    }

    /** The inner loop of `Add`: the virtual nodes of one peer. */
    method AddPeer(peer: string)
      requires Filled(config, keys, hashMap, added, "", 0)
      modifies this
      ensures Filled(config, keys, hashMap, added, "", 0) && added == old(added) + [peer]
      ensures Holds(config, keys, hashMap, added)
    {
      var i := 0;
      while i < config.replicas
        invariant 0 <= i <= Replicas(config) && added == old(added)
        invariant Filled(config, keys, hashMap, added, peer, i)
      {
        FillStep(config, keys, hashMap, added, peer, i);
        var hash := PointOf(config, peer, i);
        keys := keys + [hash];
        hashMap := hashMap[hash := peer];
        i := i + 1;
      }
      FillPeer(config, keys, hashMap, added, peer);
      added := added + [peer];
      FilledHolds(config, keys, hashMap, added);
    }

    /** sort.Search: the first index whose key is at or above `hash`. */
    method Search(hash: nat) returns (idx: nat)
      requires Sorted(keys)
      ensures idx <= |keys|
      ensures forall i :: 0 <= i < idx ==> keys[i] < hash
      ensures forall i :: idx <= i < |keys| ==> hash <= keys[i]
    {
      var lo, hi := 0, |keys|;
      while lo < hi
        invariant 0 <= lo <= hi <= |keys|
        invariant forall i :: 0 <= i < lo ==> keys[i] < hash
        invariant forall i :: hi <= i < |keys| ==> hash <= keys[i]
      {
        var mid := (lo + hi) / 2;
        if keys[mid] < hash {
          lo := mid + 1;
        } else {
          hi := mid;
        }
      }
      idx := lo;
    }

    method Get(key: string) returns (peer: string)
      requires Valid()
      ensures peer == Owner(config, added, key)
      ensures added == [] || config.replicas <= 0 ==> peer == ""
      ensures forall k: nat, i: nat :: Reached(config, added, config.hash(key), k, i) ==> peer == added[k]
    {
      OwnerByLabels(config, added, key);
      forall k: nat, i: nat | Reached(config, added, config.hash(key), k, i)
        ensures Owner(config, added, key) == added[k]
      {
        ReachedOwns(config, added, key, k, i);
      }
      if |keys| == 0 {
        assert Points(config, added) == {};
        return "";
      }
      var hash := config.hash(key);
      var idx := Search(hash);
      var at := keys[idx % |keys|];
      assert at in Points(config, added);
      assert IsCeiling(Points(config, added), hash, at) by {
        CeilingAt(keys, Points(config, added) + {}, hash, idx);
      }
      OwnerIs(config, added, key, at);
      peer := hashMap[at];
    }
  }

  lemma WrapIndex(idx: nat, n: nat)
    requires idx <= n && n > 0
    ensures idx % n == if idx == n then 0 else idx
  {
  }

  /** Binary search with wrap-around finds the ceiling. */
  lemma CeilingAt(keys: seq<nat>, points: set<nat>, x: nat, idx: nat)
    requires Sorted(keys) && SameElements(keys, points) && keys != [] && idx <= |keys|
    requires forall i :: 0 <= i < idx ==> keys[i] < x
    requires forall i :: idx <= i < |keys| ==> x <= keys[i]
    ensures IsCeiling(points, x, keys[idx % |keys|])
  {
    var w := idx % |keys|;
    WrapIndex(idx, |keys|);
    forall q | q in points
      ensures x <= q ==> idx < |keys| && keys[w] <= q
      ensures idx == |keys| ==> q < x && keys[w] <= q
    {
      var i :| 0 <= i < |keys| && keys[i] == q;
      assert w < i ==> keys[w] <= keys[i];
    }
  }
}
