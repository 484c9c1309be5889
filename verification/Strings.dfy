/** Go's string order and sort.Strings, on lists without repetitions. */
module Strings {

  predicate Less(a: string, b: string) {
    if b == "" then false
    else if a == "" then true
    else a[0] < b[0] || (a[0] == b[0] && Less(a[1..], b[1..]))
  }

  lemma {:induction false} LessTotal(a: string, b: string)
    ensures a == b || Less(a, b) || Less(b, a)
    ensures !(Less(a, b) && Less(b, a)) && !Less(a, a)
  {
    if a != "" && b != "" {
      LessTotal(a[1..], b[1..]);
      assert a == [a[0]] + a[1..] && b == [b[0]] + b[1..];
    }
    if a != "" {
      LessTotal(a[1..], a[1..]);
    }
  }

  lemma {:induction false} LessTransitive(a: string, b: string, c: string)
    requires Less(a, b) && Less(b, c)
    ensures Less(a, c)
  {
    if a != "" && a[0] == b[0] && b[0] == c[0] {
      LessTransitive(a[1..], b[1..], c[1..]);
    }
  }

  function Elems(s: seq<string>): set<string> {
    if s == [] then {} else {s[0]} + Elems(s[1..])
  }

  lemma {:induction false} ElemsConcat(a: seq<string>, b: seq<string>)
    ensures Elems(a + b) == Elems(a) + Elems(b)
  {
    if a == [] {
      assert a + b == b;
    } else {
      assert (a + b)[1..] == a[1..] + b;
      ElemsConcat(a[1..], b);
    }
  }

  predicate Repetitionless(s: seq<string>) {
    s == [] || (s[0] !in Elems(s[1..]) && Repetitionless(s[1..]))
  }

  lemma {:induction false} AppendNew(s: seq<string>, x: string)
    requires Repetitionless(s) && x !in Elems(s)
    ensures Repetitionless(s + [x]) && Elems(s + [x]) == Elems(s) + {x}
  {
    if s != [] {
      assert (s + [x])[1..] == s[1..] + [x];
      AppendNew(s[1..], x);
    }
  }

  predicate StrictlySorted(s: seq<string>) {
    |s| <= 1 || (Less(s[0], s[1]) && StrictlySorted(s[1..]))
  }

  function Insert(x: string, s: seq<string>): (r: seq<string>)
    requires StrictlySorted(s) && x !in Elems(s)
    ensures StrictlySorted(r) && Elems(r) == Elems(s) + {x}
    ensures r != [] && (r[0] == x || (s != [] && r[0] == s[0]))
  {
    if s == [] || Less(x, s[0]) then
      assert ([x] + s)[1..] == s;
      [x] + s
    else
      LessTotal(x, s[0]);
      var t := Insert(x, s[1..]);
      assert ([s[0]] + t)[1..] == t;
      [s[0]] + t
  }

  /** sort.Strings */
  function Sort(s: seq<string>): (r: seq<string>)
    requires Repetitionless(s)
    ensures StrictlySorted(r) && Elems(r) == Elems(s)
  {
    if s == [] then [] else Insert(s[0], Sort(s[1..]))
  }

  /** The head of a sorted list is below the rest. */
  lemma {:induction false} HeadIsLeast(s: seq<string>, x: string)
    requires StrictlySorted(s) && s != [] && x in Elems(s[1..])
    ensures Less(s[0], x)
  {
    if x != s[1] {
      assert s[1..][1..] == s[2..];
      HeadIsLeast(s[1..], x);
      LessTransitive(s[0], s[1], x);
    }
  }

  /** A set has one strictly sorted list. */
  lemma {:induction false} SortedIsUnique(a: seq<string>, b: seq<string>)
    requires StrictlySorted(a) && StrictlySorted(b) && Elems(a) == Elems(b)
    ensures a == b
  {
    if a != [] && b != [] {
      if a[0] != b[0] {
        HeadIsLeast(a, b[0]);
        HeadIsLeast(b, a[0]);
        LessTotal(a[0], b[0]);
      }
      TailElems(a);
      TailElems(b);
      SortedIsUnique(a[1..], b[1..]);
      assert a == [a[0]] + a[1..] && b == [b[0]] + b[1..];
    }
  }

  lemma TailElems(s: seq<string>)
    requires StrictlySorted(s) && s != []
    ensures Elems(s[1..]) == Elems(s) - {s[0]}
  {
    if s[0] in Elems(s[1..]) {
      HeadIsLeast(s, s[0]);
      LessTotal(s[0], s[0]);
    }
  }

  lemma {:induction false} SortedExists(items: set<string>)
    ensures exists s :: StrictlySorted(s) && Elems(s) == items
  {
    if items == {} {
      assert Elems([]) == items && StrictlySorted([]);
    } else {
      var x :| x in items;
      SortedExists(items - {x});
      var s :| StrictlySorted(s) && Elems(s) == items - {x};
      assert StrictlySorted(Insert(x, s)) && Elems(Insert(x, s)) == items;
    }
  }

  /** The elements of a set in order. */
  ghost function InOrder(items: set<string>): (s: seq<string>)
    ensures StrictlySorted(s) && Elems(s) == items
  {
    SortedExists(items);
    var s :| StrictlySorted(s) && Elems(s) == items;
    s
  }
}
