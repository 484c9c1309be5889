/** The byte-bounded LRU cache of cache/lru/lru.go.

    The recency list is described by a sequence of key/value pairs, most recent
    first. The class `Cache` keeps the linked list of entry objects, the hash map
    into it and the byte counter, and its methods are proved against functions on
    that sequence. */
module Lru {

  type Key = string

  /** cache.ByteView: `Len()` is the number of bytes and never changes. */
  type Value = seq<bv8>

  datatype Pair = Pair(key: Key, value: Value)

  function Size(p: Pair): nat { |p.key| + |p.value| }

  function Total(s: seq<Pair>): nat {
    if s == [] then 0 else Size(s[0]) + Total(s[1..])
  }

  /** The loop guard of `Add`, negated: a bound of 0 means unbounded. */
  predicate Fits(max: nat, s: seq<Pair>) { max == 0 || Total(s) <= max }

  function Keys(s: seq<Pair>): set<Key> {
    if s == [] then {} else {s[0].key} + Keys(s[1..])
  }

  predicate Distinct(s: seq<Pair>) {
    s == [] || (s[0].key !in Keys(s[1..]) && Distinct(s[1..]))
  }

  function IndexOf(s: seq<Pair>, k: Key): (i: nat)
    requires k in Keys(s)
    ensures i < |s| && s[i].key == k
  {
    if s[0].key == k then 0 else 1 + IndexOf(s[1..], k)
  }

  /** The stored value of a key that is present. */
  function Lookup(s: seq<Pair>, k: Key): Value
    requires k in Keys(s)
  {
    s[IndexOf(s, k)].value
  }

  function Without(s: seq<Pair>, k: Key): seq<Pair> {
    if s == [] then []
    else if s[0].key == k then Without(s[1..], k)
    else [s[0]] + Without(s[1..], k)
  }

  /** What remains after evicting from the back until the bound is met. */
  function Trim(max: nat, s: seq<Pair>): seq<Pair> {
    if s == [] || Fits(max, s) then s else Trim(max, s[..|s| - 1])
  }

  /** The list after a lookup: a hit moves to the front. */
  function Touch(s: seq<Pair>, k: Key): seq<Pair> {
    if k in Keys(s) then [Pair(k, Lookup(s, k))] + Without(s, k) else s
  }

  /** The list after `Add`. */
  function Put(max: nat, s: seq<Pair>, k: Key, v: Value): seq<Pair> {
    Trim(max, [Pair(k, v)] + Without(s, k))
  }

  /** One read-through request: lookup, then add the loaded value on a miss. */
  function ReadThrough(max: nat, s: seq<Pair>, k: Key, loaded: Value): seq<Pair> {
    if k in Keys(s) then Touch(s, k) else Put(max, s, k, loaded)
  }

  /** Oldest first: the order in which evicted entries are reported. */
  function Reverse(s: seq<Pair>): seq<Pair> {
    if s == [] then [] else Reverse(s[1..]) + [s[0]]
  }

  // ------------------------------------------------------- laws of the list

  lemma {:induction false} Concat(a: seq<Pair>, b: seq<Pair>, k: Key)
    ensures Total(a + b) == Total(a) + Total(b)
    ensures Keys(a + b) == Keys(a) + Keys(b)
    ensures Without(a + b, k) == Without(a, k) + Without(b, k)
    ensures Distinct(a + b) <==> Distinct(a) && Distinct(b) && Keys(a) !! Keys(b)
  {
    if a == [] {
      assert a + b == b;
    } else {
      assert (a + b)[1..] == a[1..] + b;
      Concat(a[1..], b, k);
    }
  }

  lemma {:induction false} KeyAt(s: seq<Pair>, i: nat)
    requires i < |s|
    ensures s[i].key in Keys(s)
    ensures Distinct(s) ==> IndexOf(s, s[i].key) == i
  {
    if i != 0 {
      KeyAt(s[1..], i - 1);
    }
  }

  lemma AbsentEverywhere(s: seq<Pair>, k: Key)
    requires k !in Keys(s)
    ensures forall i :: 0 <= i < |s| ==> s[i].key != k
  {
    forall i | 0 <= i < |s| ensures s[i].key != k {
      KeyAt(s, i);
    }
  }

  lemma {:induction false} WithoutAbsent(s: seq<Pair>, k: Key)
    ensures k !in Keys(s) ==> Without(s, k) == s
    ensures Keys(Without(s, k)) == Keys(s) - {k}
    ensures Distinct(s) ==> Distinct(Without(s, k))
  {
    if s != [] {
      WithoutAbsent(s[1..], k);
      if s[0].key != k {
        assert Without(s, k)[1..] == Without(s[1..], k);
      }
    }
  }

  /** With distinct keys, removing a key removes exactly its one position. */
  lemma WithoutPresent(s: seq<Pair>, k: Key)
    requires Distinct(s) && k in Keys(s)
    ensures var i := IndexOf(s, k);
            && Without(s, k) == s[..i] + s[i + 1..]
            && Total(s) == Size(s[i]) + Total(Without(s, k))
  {
    var i := IndexOf(s, k);
    var a, p, b := s[..i], [s[i]], s[i + 1..];
    assert s == a + (p + b) && (p + b)[1..] == b;
    Concat(a, p + b, k);
    Concat(a, b, k);
    WithoutAbsent(a, k);
    WithoutAbsent(b, k);
  }

  lemma Front(p: Pair, s: seq<Pair>)
    ensures Total([p] + s) == Size(p) + Total(s)
    ensures Keys([p] + s) == {p.key} + Keys(s)
    ensures Distinct([p] + s) <==> p.key !in Keys(s) && Distinct(s)
  {
    assert ([p] + s)[1..] == s;
  }

  function MoveIndexToFront<T>(s: seq<T>, i: nat): (r: seq<T>)
    requires i < |s|
    ensures |r| == |s| && r[0] == s[i]
    ensures forall j :: 0 < j <= i ==> r[j] == s[j - 1]
    ensures forall j :: i < j < |s| ==> r[j] == s[j]
  {
    [s[i]] + s[..i] + s[i + 1..]
  }

  /** A hit permutes the list: same keys, same bytes. */
  lemma TouchPresent(s: seq<Pair>, k: Key)
    requires Distinct(s) && k in Keys(s)
    ensures Distinct(Touch(s, k)) && Keys(Touch(s, k)) == Keys(s)
    ensures Total(Touch(s, k)) == Total(s)
  {
    var i := IndexOf(s, k);
    WithoutPresent(s, k);
    WithoutAbsent(s, k);
    Front(s[i], Without(s, k));
  }

  lemma TouchMoves(s: seq<Pair>, k: Key)
    requires Distinct(s) && k in Keys(s)
    ensures Touch(s, k) == MoveIndexToFront(s, IndexOf(s, k))
  {
    var i := IndexOf(s, k);
    WithoutPresent(s, k);
    var a, b := s[..i], s[i + 1..];
    assert [s[i]] + (a + b) == [s[i]] + a + b;
  }

  lemma Last(s: seq<Pair>)
    requires s != [] && Distinct(s)
    ensures var n := |s| - 1;
            && Total(s) == Total(s[..n]) + Size(s[n])
            && Keys(s[..n]) == Keys(s) - {s[n].key}
            && Distinct(s[..n])
  {
    var n := |s| - 1;
    var last := [s[n]];
    assert last[1..] == [];
    assert Total(last) == Size(s[n]) && Keys(last) == {s[n].key};
    assert s == s[..n] + last;
    Concat(s[..n], last, "");
  }

  // ------------------------------------------------- the eviction loop's result

  lemma TotalOfPrefix(p: seq<Pair>, s: seq<Pair>)
    requires p <= s
    ensures Total(p) <= Total(s)
  {
    assert s == p + s[|p|..];
    Concat(p, s[|p|..], "");
  }

  /** `Trim` is the longest prefix that fits: exactly the shortest sufficient
      suffix of oldest entries is evicted. */
  lemma {:induction false} TrimIsLongestFittingPrefix(max: nat, s: seq<Pair>)
    ensures Trim(max, s) <= s
    ensures Fits(max, Trim(max, s))
    ensures forall p :: p <= s && Fits(max, p) ==> p <= Trim(max, s)
  {
    if s != [] && !Fits(max, s) {
      var front := s[..|s| - 1];
      TrimIsLongestFittingPrefix(max, front);
      forall p | p <= s && Fits(max, p) ensures p <= Trim(max, s) {
        assert p != s;
        assert p <= front;
      }
    }
  }

  /** The guard of the eviction loop. */
  predicate Overflows(max: int, s: seq<Pair>) { max != 0 && max < Total(s) }

  /** Evicting from the back ends the loop if and only if the bound is not negative:
      below 0 even the empty list overflows. */
  lemma EvictionEndsIff(max: int, s: seq<Pair>)
    ensures (exists p :: p <= s && !Overflows(max, p)) <==> max >= 0
    ensures max >= 0 ==> (Overflows(max, s) <==> !Fits(max, s))
  {
    assert [] <= s && Total([]) == 0;
    assert !Overflows(max, []) <==> max >= 0;
  }

  /** A fitting prefix that cannot be extended is the trimmed list. */
  lemma TrimUnique(max: nat, s: seq<Pair>, p: seq<Pair>)
    requires p <= s && Fits(max, p)
    requires p == s || !Fits(max, s[..|p| + 1])
    ensures Trim(max, s) == p
  {
    TrimIsLongestFittingPrefix(max, s);
    var t := Trim(max, s);
    if p != s && |t| > |p| {
      assert s[..|p| + 1] <= t;
      TotalOfPrefix(s[..|p| + 1], t);
    }
  }

  /** One round of the loop, with `s` of the whole list left. */
  lemma EvictOne(max: nat, whole: seq<Pair>, s: seq<Pair>, reported: seq<Pair>)
    requires s != [] && s <= whole && !Fits(max, s)
    ensures var n := |s| - 1;
            && s[..n] <= whole && Trim(max, s[..n]) == Trim(max, s)
            && reported + Reverse(whole[|s|..]) + [s[n]] == reported + Reverse(whole[n..])
  {
    var n := |s| - 1;
    assert whole[n..][1..] == whole[|s|..] && whole[n] == s[n];
    assert Reverse(whole[n..]) == Reverse(whole[|s|..]) + [s[n]];
  }

  // ------------------------------------------------------------- the cache

  class Entry {
    const key: Key
    var value: Value

    constructor (key: Key, value: Value)
      ensures this.key == key && this.value == value
    {
      this.key, this.value := key, value;
    }
  }

  class Cache {
    const maxBytes: int
    var nbytes: int
    var ll: seq<Entry>            // front of the list first
    var cache: map<Key, Entry>
    var evicted: seq<Pair>        // the calls made to OnEvicted so far, in order
    ghost var contents: seq<Pair> // what the list's entries hold
    ghost var Repr: set<object>

    /** List and map are in bijection, keys are distinct, the counter is the sum. */
    ghost predicate Valid()
      reads this, Repr
    {
      && this in Repr
      && |contents| == |ll|
      && (forall i :: 0 <= i < |ll| ==> ll[i] in Repr && contents[i] == Pair(ll[i].key, ll[i].value))
      && (forall i :: 0 <= i < |ll| ==> ll[i].key in cache && cache[ll[i].key] == ll[i])
      && cache.Keys == Keys(contents)
      && Distinct(contents)
      && nbytes == Total(contents)
    }

    constructor (maxBytes: int)
      ensures Valid() && fresh(Repr) && contents == [] && evicted == []
      ensures this.maxBytes == maxBytes
    {
      this.maxBytes := maxBytes;
      nbytes, ll, cache, evicted, contents := 0, [], map[], [], [];
      Repr := {this};
    }

    /** Where the list holds an entry. */
    method Position(item: Entry) returns (i: nat)
      requires Valid() && item.key in cache && cache[item.key] == item
      ensures i < |ll| && ll[i] == item && i == IndexOf(contents, item.key)
    {
      ghost var at := IndexOf(contents, item.key);
      i := 0;
      while ll[i] != item
        invariant 0 <= i <= at < |ll|
        decreases at - i
      {
        i := i + 1;
      }
      KeyAt(contents, i);
    }

    method MoveToFront(item: Entry)
      requires Valid() && item.key in cache && cache[item.key] == item
      modifies this`ll, this`contents
      ensures Valid()
      ensures contents == Touch(old(contents), item.key)
      ensures ll != [] && ll[0] == item
    {
      var i := Position(item);
      TouchPresent(contents, item.key);
      TouchMoves(contents, item.key);
      ll := MoveIndexToFront(ll, i);
      contents := MoveIndexToFront(contents, i);
    }

    method Get(key: Key) returns (value: Value, ok: bool)
      requires Valid()
      modifies this`ll, this`contents
      ensures Valid()
      ensures ok == (key in Keys(old(contents)))
      ensures ok ==> value == Lookup(old(contents), key)
      ensures !ok ==> value == []
      ensures contents == Touch(old(contents), key)
    {
      if key !in cache {
        return [], false;
      }
      var item := cache[key];
      assert ll[IndexOf(contents, key)] == item;
      MoveToFront(item);
      return item.value, true;
    }

    method RemoveOldest()
      requires Valid()
      modifies this`ll, this`contents, this`cache, this`nbytes, this`evicted
      ensures Valid()
      ensures old(ll) == [] ==> ll == [] && contents == [] && evicted == old(evicted)
      ensures old(ll) != [] ==> |ll| == |old(ll)| - 1 && contents == old(contents)[..|ll|]
      ensures old(ll) != [] ==> evicted == old(evicted) + [old(contents)[|ll|]]
    {
      if ll != [] {
        var n := |ll| - 1;
        var item := ll[n];
        Last(contents);
        ll := ll[..n];
        contents := contents[..n];
        cache := cache - {item.key};
        nbytes := nbytes - (|item.key| + |item.value|);
        evicted := evicted + [Pair(item.key, item.value)];
        forall i | 0 <= i < n ensures ll[i].key in cache {
          KeyAt(contents, i);
        }
      }
    }

    /** `Add` on a key that is present: move to front and overwrite in place. */
    method Overwrite(item: Entry, value: Value)
      requires Valid() && item.key in cache && cache[item.key] == item
      modifies Repr
      ensures Valid() && Repr == old(Repr) && evicted == old(evicted)
      ensures contents == [Pair(item.key, value)] + Without(old(contents), item.key)
    {
      ghost var rest := Without(contents, item.key);
      assert ll[IndexOf(contents, item.key)] == item;
      WithoutAbsent(contents, item.key);
      MoveToFront(item);
      Front(contents[0], rest);
      Front(Pair(item.key, value), rest);
      forall i | 0 < i < |ll| ensures ll[i] != item {
        KeyAt(contents, i);
        KeyAt(contents, 0);
      }
      nbytes := nbytes + |value| - |item.value|;
      item.value := value;
      contents := [Pair(item.key, value)] + rest;
    }

    /** `Add` on a key that is absent: push a new entry. */
    method Push(key: Key, value: Value)
      requires Valid() && key !in cache
      modifies this
      ensures Valid() && fresh(Repr - old(Repr)) && evicted == old(evicted)
      ensures contents == [Pair(key, value)] + old(contents)
    {
      Front(Pair(key, value), contents);
      ghost var older, was := ll, contents;
      AbsentEverywhere(contents, key);
      var item := new Entry(key, value);
      ll := [item] + ll;
      cache := cache[key := item];
      nbytes := nbytes + |item.key| + |item.value|;
      Repr := Repr + {item};
      contents := [Pair(key, value)] + contents;
      assert forall i :: 0 < i < |ll| ==> ll[i] == older[i - 1];
      assert forall i :: 0 < i < |ll| ==> contents[i] == was[i - 1];
    }

    method EvictOverflow()
      requires Valid() && maxBytes >= 0
      modifies this`ll, this`contents, this`cache, this`nbytes, this`evicted
      ensures Valid()
      ensures contents == Trim(maxBytes, old(contents))
      ensures contents <= old(contents)
      ensures evicted == old(evicted) + Reverse(old(contents)[|contents|..])
    {
      ghost var whole, reported := contents, evicted;
      assert whole[|whole|..] == [];
      while maxBytes != 0 && maxBytes < nbytes
        invariant Valid() && contents <= whole
        invariant Trim(maxBytes, contents) == Trim(maxBytes, whole)
        invariant evicted == reported + Reverse(whole[|contents|..])
        decreases |ll|
      {
        EvictOne(maxBytes, whole, contents, reported);
        RemoveOldest();
      }
    }

    method Add(key: Key, value: Value)
      requires Valid() && maxBytes >= 0
      modifies Repr
      ensures Valid() && fresh(Repr - old(Repr)) && Fits(maxBytes, contents)
      ensures contents == Put(maxBytes, old(contents), key, value)
      ensures var full := [Pair(key, value)] + Without(old(contents), key);
              contents <= full && evicted == old(evicted) + Reverse(full[|contents|..])
    {
      if key in cache {
        assert ll[IndexOf(contents, key)] == cache[key];
        Overwrite(cache[key], value);
      } else {
        WithoutAbsent(contents, key);
        Push(key, value);
      }
      TrimIsLongestFittingPrefix(maxBytes, contents);
      EvictOverflow();
    }
  }
}
