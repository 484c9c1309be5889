/** Service discovery of rpc/xclient/discovery.go and discovery_gee.go: the server list
    as header text, the cached list on top of the registry, round-robin selection. */
module Discovery {
  import opened Wrappers
  import opened Strings
  import opened Registry

  // ------------------------------------------------------- printer and parser

  /** strings.Join(list, ",") */
  function Join(list: seq<string>): string {
    if list == [] then ""
    else if |list| == 1 then list[0]
    else list[0] + "," + Join(list[1..])
  }

  function IndexOfComma(s: string): (i: nat)
    ensures i <= |s| && (i < |s| ==> s[i] == ',') && ',' !in s[..i]
  {
    if s == "" || s[0] == ',' then 0
    else
      var i := 1 + IndexOfComma(s[1..]);
      assert s[..i] == [s[0]] + s[1..][..i - 1];
      i
  }

  /** strings.Split(s, ","): a text without commas is one part, the empty one too. */
  function Split(s: string): (parts: seq<string>)
    ensures parts != []
    decreases |s|
  {
    var i := IndexOfComma(s);
    if i == |s| then [s] else [s[..i]] + Split(s[i + 1..])
  }

  /** unicode.IsSpace */
  predicate IsSpace(c: char) {
    c in {'\t', '\n', '\U{0b}', '\U{0c}', '\r', ' ', '\U{85}', '\U{a0}', '\U{1680}',
          '\U{2028}', '\U{2029}', '\U{202f}', '\U{205f}', '\U{3000}'}
    || '\U{2000}' <= c <= '\U{200a}'
  }

  function TrimLeft(s: string): string {
    if s != "" && IsSpace(s[0]) then TrimLeft(s[1..]) else s
  }

  function TrimRight(s: string): string {
    if s != "" && IsSpace(s[|s| - 1]) then TrimRight(s[..|s| - 1]) else s
  }

  /** strings.TrimSpace */
  function Trim(s: string): string { TrimRight(TrimLeft(s)) }

  /** The parts that are not blank, trimmed. */
  function Keep(parts: seq<string>): seq<string> {
    if parts == [] then []
    else if Trim(parts[0]) == "" then Keep(parts[1..])
    else [Trim(parts[0])] + Keep(parts[1..])
  }

  function Parse(header: string): seq<string> { Keep(Split(header)) }

  /** An address that survives: not empty, no comma, no space at either end. */
  predicate Clean(a: string) {
    a != "" && ',' !in a && !IsSpace(a[0]) && !IsSpace(a[|a| - 1])
  }

  predicate AllClean(list: seq<string>) {
    list == [] || (Clean(list[0]) && AllClean(list[1..]))
  }

  lemma CleanIsTrimmed(a: string)
    requires Clean(a)
    ensures Trim(a) == a
  {
  }

  lemma {:induction false} TrimLeftFacts(s: string)
    ensures TrimLeft(s) != "" ==> !IsSpace(TrimLeft(s)[0])
    ensures ',' !in s ==> ',' !in TrimLeft(s)
  {
    if s != "" && IsSpace(s[0]) {
      TrimLeftFacts(s[1..]);
    }
  }

  lemma {:induction false} TrimRightFacts(s: string)
    ensures TrimRight(s) <= s
    ensures TrimRight(s) != "" ==> !IsSpace(TrimRight(s)[|TrimRight(s)| - 1])
  {
    if s != "" && IsSpace(s[|s| - 1]) {
      TrimRightFacts(s[..|s| - 1]);
    }
  }

  lemma TrimIsClean(s: string)
    requires ',' !in s && Trim(s) != ""
    ensures Clean(Trim(s))
  {
    TrimLeftFacts(s);
    TrimRightFacts(TrimLeft(s));
  }

  predicate AllSpace(s: string) { forall i :: 0 <= i < |s| ==> IsSpace(s[i]) }

  lemma {:induction false} LeftSpace(s: string) returns (a: string)
    ensures s == a + TrimLeft(s) && AllSpace(a)
  {
    if s != "" && IsSpace(s[0]) {
      var rest := LeftSpace(s[1..]);
      a := [s[0]] + rest;
      assert s == a + TrimLeft(s[1..]);
    } else {
      a := "";
      assert s == a + s;
    }
  }

  lemma {:induction false} RightSpace(s: string) returns (b: string)
    ensures s == TrimRight(s) + b && AllSpace(b)
  {
    if s != "" && IsSpace(s[|s| - 1]) {
      var front := RightSpace(s[..|s| - 1]);
      b := front + [s[|s| - 1]];
      assert s == TrimRight(s[..|s| - 1]) + b;
    } else {
      b := "";
      assert s == s + b;
    }
  }

  /** Trimming takes off space at both ends and nothing else, and leaves none there. */
  lemma TrimIs(s: string) returns (a: string, b: string)
    ensures s == a + Trim(s) + b && AllSpace(a) && AllSpace(b)
    ensures Trim(s) != "" ==> !IsSpace(Trim(s)[0]) && !IsSpace(Trim(s)[|Trim(s)| - 1])
    ensures Trim(s) == "" <==> AllSpace(s)
  {
    a := LeftSpace(s);
    b := RightSpace(TrimLeft(s));
    TrimLeftFacts(s);
    TrimRightFacts(TrimLeft(s));
    if Trim(s) != "" {
      assert s[|a|] == Trim(s)[0];
    }
  }

  /** A part is dropped if and only if it is blank, and trimmed otherwise. */
  lemma KeepOne(part: string)
    ensures Keep([part]) == if AllSpace(part) then [] else [Trim(part)]
  {
    var a, b := TrimIs(part);
    assert [part][1..] == [];
  }

  lemma Recut(s: string, i: nat)
    requires i < |s| && s[i] == ','
    ensures s == s[..i] + "," + s[i + 1..]
  {
  }

  lemma JoinOne(a: string)
    ensures Join([a]) == a
  {
  }

  /** The parts are the text cut at its commas. */
  lemma {:induction false} JoinOfSplit(s: string)
    ensures Join(Split(s)) == s
    decreases |s|
  {
    var i := IndexOfComma(s);
    if i == |s| {
      assert s[..i] == s;
      SplitFirst(s, "");
      JoinOne(s);
    } else {
      var a, rest := s[..i], s[i + 1..];
      Recut(s, i);
      JoinOfSplit(rest);
      SplitFirst(a, rest);
      JoinFirst(a, Split(rest));
    }
  }

  lemma JoinFirst(a: string, rest: seq<string>)
    requires rest != []
    ensures Join([a] + rest) == a + "," + Join(rest)
  {
    assert ([a] + rest)[1..] == rest;
  }

  lemma {:induction false} SplitHasNoCommas(s: string, i: nat)
    requires i < |Split(s)|
    ensures ',' !in Split(s)[i]
    decreases |s|
  {
    var at := IndexOfComma(s);
    if at == |s| {
      assert s[..at] == s;
    } else if i > 0 {
      SplitHasNoCommas(s[at + 1..], i - 1);
    }
  }

  lemma {:induction false} KeepIsClean(parts: seq<string>)
    requires forall i :: 0 <= i < |parts| ==> ',' !in parts[i]
    ensures AllClean(Keep(parts))
  {
    if parts != [] {
      KeepIsClean(parts[1..]);
      if Trim(parts[0]) != "" {
        TrimIsClean(parts[0]);
        assert Keep(parts)[1..] == Keep(parts[1..]);
      }
    }
  }

  /** Whatever the header says, the parsed addresses are clean. */
  lemma ParseIsClean(header: string)
    ensures AllClean(Parse(header))
  {
    forall i | 0 <= i < |Split(header)| ensures ',' !in Split(header)[i] {
      SplitHasNoCommas(header, i);
    }
    KeepIsClean(Split(header));
  }

  lemma {:induction false} CommaAfter(a: string, rest: string)
    requires ',' !in a
    ensures IndexOfComma(a + "," + rest) == |a| && IndexOfComma(a) == |a|
  {
    if a == "" {
      assert (a + "," + rest)[0] == ',';
    } else {
      assert (a + "," + rest)[1..] == a[1..] + "," + rest;
      CommaAfter(a[1..], rest);
    }
  }

  lemma SplitFirst(a: string, rest: string)
    requires ',' !in a
    ensures Split(a + "," + rest) == [a] + Split(rest)
    ensures Split(a) == [a]
  {
    var s := a + "," + rest;
    CommaAfter(a, rest);
    assert s[..|a|] == a && s[|a| + 1..] == rest;
  }

  lemma {:induction false} RoundTrip(list: seq<string>)
    requires AllClean(list)
    ensures Parse(Join(list)) == list
  {
    if list == [] {
      assert Split("") == [""];
      assert [""][1..] == [];
    } else {
      CleanIsTrimmed(list[0]);
      if |list| == 1 {
        SplitFirst(list[0], "");
        assert list == [list[0]] && [list[0]][1..] == [];
        assert Keep([list[0]]) == [list[0]] + Keep([]);
      } else {
        RoundTrip(list[1..]);
        var rest := Join(list[1..]);
        SplitFirst(list[0], rest);
        assert ([list[0]] + Split(rest))[1..] == Split(rest);
        assert list == [list[0]] + list[1..];
      }
    }
  }

  /** Printing and parsing gives back exactly the lists of clean addresses. */
  lemma RoundTripIff(list: seq<string>)
    ensures Parse(Join(list)) == list <==> AllClean(list)
  {
    ParseIsClean(Join(list));
    if AllClean(list) {
      RoundTrip(list);
    }
  }

  // ---------------------------------------------- lists that are not clean

  lemma {:induction false} KeepConcat(a: seq<string>, b: seq<string>)
    ensures Keep(a + b) == Keep(a) + Keep(b)
  {
    if a == [] {
      assert a + b == b;
    } else {
      assert (a + b)[1..] == a[1..] + b;
      KeepConcat(a[1..], b);
    }
  }

  lemma Regroup(a: string, b: string, c: string)
    ensures a + "," + b + "," + c == a + "," + (b + "," + c)
  {
  }

  /** A comma ends the parts of what is before it, commas there included. */
  lemma {:induction false} SplitConcat(a: string, rest: string)
    ensures Split(a + "," + rest) == Split(a) + Split(rest)
    decreases |a|
  {
    var i := IndexOfComma(a);
    if i == |a| {
      assert a[..i] == a;
      SplitFirst(a, rest);
    } else {
      var first, more := a[..i], a[i + 1..];
      assert a == first + "," + more;
      SplitConcat(more, rest);
      Regroup(first, more, rest);
      SplitPrefixed(first, more, rest, more + "," + rest);
    }
  }

  lemma SplitPrefixed(a: string, b: string, rest: string, inner: string)
    requires ',' !in a && Split(inner) == Split(b) + Split(rest)
    ensures Split(a + "," + inner) == Split(a + "," + b) + Split(rest)
  {
    SplitFirst(a, b);
    SplitFirst(a, inner);
    Associative([a], Split(b), Split(rest));
  }

  lemma Associative(a: seq<string>, b: seq<string>, c: seq<string>)
    ensures a + (b + c) == a + b + c
  {
  }

  /** The addresses that the entries of a list turn into, one after the other. */
  function Pieces(list: seq<string>): seq<string> {
    if list == [] then [] else Parse(list[0]) + Pieces(list[1..])
  }

  /** Any list, clean or not, comes back as the pieces of its entries. */
  lemma {:induction false} ParseOfJoin(list: seq<string>)
    ensures Parse(Join(list)) == Pieces(list)
  {
    if list == [] {
      assert Split("") == [""] && [""][1..] == [];
    } else if |list| == 1 {
      assert list[1..] == [];
    } else {
      var rest := Join(list[1..]);
      ParseOfJoin(list[1..]);
      SplitConcat(list[0], rest);
      KeepConcat(Split(list[0]), Split(rest));
    }
  }

  lemma {:induction false} PiecesOf(list: seq<string>, a: string)
    ensures a in Elems(Pieces(list)) <==> exists b :: b in Elems(list) && a in Elems(Parse(b))
  {
    if list != [] {
      PiecesOf(list[1..], a);
      ElemsConcat(Parse(list[0]), Pieces(list[1..]));
    }
  }

  /** A clean address is its own only piece. */
  lemma CleanPiece(b: string, a: string)
    requires Clean(b)
    ensures a in Elems(Parse(b)) <==> a == b
  {
    assert [b][1..] == [];
    assert AllClean([b]) && Join([b]) == b;
    RoundTrip([b]);
    assert Elems([b]) == {b} + Elems([]);
  }

  // ------------------------------------------- cached list on top of a registry

  /** The cached list and when it was fetched; never at first. */
  datatype Cached = Cached(servers: seq<string>, lastUpdate: Option<int>)

  predicate FreshEnough(c: Cached, timeout: int, now: int) {
    c.lastUpdate.Some? && c.lastUpdate.value + timeout > now
  }

  const DEFAULT_UPDATE_TIMEOUT := 10_000_000_000

  class GeeRegistryDiscovery {
    const timeout: int
    var servers: seq<string>
    var lastUpdate: Option<int>
    var index: nat

    ghost function View(): Cached
      reads this
    {
      Cached(servers, lastUpdate)
    }

    constructor (timeout: int, index: nat)
      ensures this.timeout == (if timeout == 0 then DEFAULT_UPDATE_TIMEOUT else timeout)
      ensures View() == Cached([], None) && this.index == index
    {
      this.timeout := if timeout == 0 then DEFAULT_UPDATE_TIMEOUT else timeout;
      servers, lastUpdate, this.index := [], None, index;
    }

    /** `header` is what the registry answers at time `now`; none is an HTTP error. */
    method Refresh(now: int, header: Option<string>) returns (ok: bool)
      modifies this`servers, this`lastUpdate
      ensures ok <==> FreshEnough(old(View()), timeout, now) || header.Some?
      ensures View() == if FreshEnough(old(View()), timeout, now) || header.None? then old(View())
                        else Cached(Parse(header.value), Some(now))
    {
      if lastUpdate.Some? && lastUpdate.value + timeout > now {
        return true;
      }
      if header.None? {
        return false;
      }
      var parts := Split(header.value);
      servers := [];
      for i := 0 to |parts|
        invariant servers + Keep(parts[i..]) == Keep(parts)
        invariant lastUpdate == old(lastUpdate)
      {
        assert parts[i..][1..] == parts[i + 1..];
        if Trim(parts[i]) != "" {
          servers := servers + [Trim(parts[i])];
        }
      }
      assert parts[|parts|..] == [] && servers + [] == servers;
      lastUpdate := Some(now);
      return true;
    }

    /** MultiServersDiscovery.Get in round-robin mode. */
    method RoundRobin() returns (server: Option<string>)
      modifies this`index
      ensures servers == [] ==> server == None && index == old(index)
      ensures servers != [] ==> server == Some(servers[old(index) % |servers|]) && index == old(index) + 1
    {
      if |servers| == 0 {
        return None;
      }
      server := Some(servers[index % |servers|]);
      index := index + 1;
    }

    /** A window of m calls: on a list of n servers every position is chosen m/n times,
        rounded down or up. */
    method RoundRobinWindow(m: nat) returns (got: seq<Option<string>>, chosen: seq<nat>)
      modifies this`index
      ensures |got| == m
      ensures servers == [] ==> index == old(index) && forall k :: 0 <= k < m ==> got[k] == None
      ensures servers != [] ==> index == old(index) + m && |chosen| == m
      ensures servers != [] ==>
                forall k :: 0 <= k < m ==> chosen[k] < |servers| && got[k] == Some(servers[chosen[k]])
      ensures servers != [] ==> forall p :: 0 <= p < |servers| ==>
                m / |servers| <= Count(chosen, p) <= (m + |servers| - 1) / |servers|
    {
      got, chosen := [], [];
      for i := 0 to m
        invariant |got| == i
        invariant servers == [] ==> index == old(index) && forall k :: 0 <= k < i ==> got[k] == None
        invariant servers != [] ==> index == old(index) + i && |chosen| == i
        invariant servers != [] ==>
                    forall k :: 0 <= k < i ==> chosen[k] == (old(index) + k) % |servers| && got[k] == Some(servers[chosen[k]])
      {
        if servers != [] {
          chosen := chosen + [index % |servers|];
        }
        var server := RoundRobin();
        got := got + [server];
      }
      if servers != [] {
        forall p | 0 <= p < |servers|
          ensures m / |servers| <= Count(chosen, p) <= (m + |servers| - 1) / |servers|
        {
          CountIsPicks(chosen, old(index), |servers|, p);
          RoundRobinIsFair(old(index), m, |servers|, p);
        }
      }
    }
  }

  /** Registry, its other users, and one discovery that asks it. `reached`: the HTTP
      request of a refresh succeeds. */
  datatype WorldStep = Beat(addr: string, at: int) | Other(at: int) | Ask(at: int, reached: bool)

  datatype World = World(history: seq<Event>, cached: Cached)

  /** One step, with registry timeout r and discovery timeout t. */
  ghost function WorldNext(w: World, step: WorldStep, r: int, t: int): World {
    match step
    case Beat(addr, at) => w.(history := w.history + [Put(addr, at)])
    case Other(at) => w.(history := w.history + [Query(at)])
    case Ask(at, reached) =>
      if FreshEnough(w.cached, t, at) || !reached then w
      else World(w.history + [Query(at)], Cached(Fetched(w.history, r, at), Some(at)))
  }

  ghost function WorldAfter(steps: seq<WorldStep>, r: int, t: int): World {
    if steps == [] then World([], Cached([], None))
    else WorldNext(WorldAfter(steps[..|steps| - 1], r, t), steps[|steps| - 1], r, t)
  }

  ghost predicate InTime(steps: seq<WorldStep>) {
    forall i, j :: 0 <= i < j < |steps| ==> steps[i].at <= steps[j].at
  }

  /** The list a refresh takes from a registry at time u. */
  ghost function Fetched(h: seq<Event>, r: int, u: int): seq<string> {
    Parse(Join(AliveList(h, r, u)))
  }

  /** The cached list was fetched at the moment u from the heartbeats up to then. */
  ghost predicate Snapshot(w: World, r: int, u: int, k: nat) {
    && k <= |w.history| && Upto(w.history[..k], u)
    && w.cached == Cached(Fetched(w.history[..k], r, u), Some(u))
  }

  /** Events are in order, and the list, if ever fetched, is a snapshot. */
  ghost predicate WorldOk(w: World, r: int, now: int) {
    && Ordered(w.history) && Upto(w.history, now)
    && (w.cached.lastUpdate.Some? ==>
          && w.cached.lastUpdate.value <= now
          && exists k: nat :: Snapshot(w, r, w.cached.lastUpdate.value, k))
  }

  lemma WorldStepOk(v: World, step: WorldStep, r: int, t: int, now: int)
    requires WorldOk(v, r, now) && now <= step.at
    ensures WorldOk(WorldNext(v, step, r, t), r, step.at)
  {
    var w := WorldNext(v, step, r, t);
    if step.Ask? && !(FreshEnough(v.cached, t, step.at) || !step.reached) {
      assert w.history[..|v.history|] == v.history;
      assert Snapshot(w, r, step.at, |v.history|);
    } else if v.cached.lastUpdate.Some? {
      var u := v.cached.lastUpdate.value;
      var k: nat :| Snapshot(v, r, u, k);
      assert w.history[..k] == v.history[..k];
      assert Snapshot(w, r, u, k);
    }
  }

  lemma {:induction false} WorldInv(steps: seq<WorldStep>, r: int, t: int)
    requires InTime(steps) && steps != []
    ensures WorldOk(WorldAfter(steps, r, t), r, steps[|steps| - 1].at)
  {
    var before, step := steps[..|steps| - 1], steps[|steps| - 1];
    if before == [] {
      assert WorldOk(WorldAfter(before, r, t), r, step.at);
      WorldStepOk(WorldAfter(before, r, t), step, r, t, step.at);
    } else {
      WorldInv(before, r, t);
      WorldStepOk(WorldAfter(before, r, t), step, r, t, before[|before| - 1].at);
    }
  }

  /** What the registry lists at time u has sent a heartbeat less than r before. */
  lemma {:induction false} ListedIsRecent(h: seq<Event>, r: int, u: int, a: string)
    requires Upto(h, u) && Alive(h, r, u, a)
    ensures LastPut(h, a).value <= u && (r != 0 ==> u - r < LastPut(h, a).value)
  {
    LastPutIsInHistory(h, a, u);
  }

  /** The address b was alive when the list was fetched, and a is one of its pieces. */
  ghost predicate ComesFrom(h: seq<Event>, r: int, u: int, a: string, b: string) {
    Alive(h, r, u, b) && a in Elems(Parse(b))
  }

  /** Whatever is registered: a server is listed if and only if it is a piece of an
      address alive at that moment. */
  lemma ListedIff(h: seq<Event>, r: int, u: int, a: string)
    ensures a in Elems(Fetched(h, r, u)) <==> exists b :: ComesFrom(h, r, u, a, b)
  {
    ParseOfJoin(AliveList(h, r, u));
    PiecesOf(AliveList(h, r, u), a);
    forall b ensures b in Elems(AliveList(h, r, u)) <==> Alive(h, r, u, b) {
      AliveListIs(h, r, u, b);
    }
    assert forall b :: ComesFrom(h, r, u, a, b) <==> b in Elems(AliveList(h, r, u)) && a in Elems(Parse(b));
  }

  /** Every piece of an unclean address that is alive is itself alive. */
  ghost predicate NoStrangers(h: seq<Event>, r: int, u: int) {
    forall a, b :: ComesFrom(h, r, u, a, b) && !Clean(b) ==> Alive(h, r, u, a)
  }

  /** All listed servers are alive themselves if and only if the unclean addresses bring
      in no strangers. */
  lemma AllAliveIff(h: seq<Event>, r: int, u: int)
    ensures (forall a :: a in Elems(Fetched(h, r, u)) ==> Alive(h, r, u, a)) <==> NoStrangers(h, r, u)
  {
    forall a ensures a in Elems(Fetched(h, r, u)) <==> exists b :: ComesFrom(h, r, u, a, b) {
      ListedIff(h, r, u, a);
    }
    if NoStrangers(h, r, u) {
      forall a | a in Elems(Fetched(h, r, u)) ensures Alive(h, r, u, a) {
        var b :| ComesFrom(h, r, u, a, b);
        if Clean(b) {
          CleanPiece(b, a);
        }
      }
    }
  }

  /** How old a cached list may be: a negative timeout never keeps one. */
  function MaxAge(t: int): nat { if t < 0 then 0 else t }

  /** The last heartbeat of b is at most the two timeouts old. */
  predicate Recent(h: seq<Event>, r: int, t: int, now: int, b: string) {
    && LastPut(h, b).Some? && LastPut(h, b).value <= now
    && (r != 0 ==> now - MaxAge(t) - r < LastPut(h, b).value)
  }

  /** What was alive in a snapshot taken within the discovery timeout is recent, for the
      heartbeats up to the snapshot and for all. */
  lemma AliveIsRecent(history: seq<Event>, k: nat, r: int, t: int, u: int, now: int, b: string)
    requires Ordered(history) && Upto(history, now) && k <= |history| && Upto(history[..k], u)
    requires u <= now && (u == now || now < u + t) && Alive(history[..k], r, u, b)
    ensures Recent(history[..k], r, t, now, b) && Recent(history, r, t, now, b)
  {
    ListedIsRecent(history[..k], r, u, b);
    assert history == history[..k] + history[k..];
    LastPutGrows(history[..k], history[k..], b);
    LastPutIsInHistory(history, b, now);
  }

  /** Two-level staleness: when discovery answers at time `now`, its list was fetched, for
      the heartbeats h, at some moment u that is `now` itself or less than the discovery
      timeout ago. Whatever is registered, every listed server comes from an address whose
      last heartbeat seen by then is, with a registry timeout other than 0, later than
      now - t - r. All listed servers were alive themselves at u, and so sent such a
      heartbeat, if and only if no unclean address brings in strangers; and the list is the
      registry's exact list if and only if all addresses in that are clean. */
  lemma TwoLevelStaleness(steps: seq<WorldStep>, r: int, t: int, now: int, reached: bool)
    returns (h: seq<Event>, u: int)
    requires InTime(steps + [Ask(now, reached)])
    requires FreshEnough(WorldAfter(steps, r, t).cached, t, now) || reached
    ensures h <= WorldAfter(steps + [Ask(now, reached)], r, t).history && Upto(h, u)
    ensures u <= now && (u == now || now < u + t)
    ensures WorldAfter(steps + [Ask(now, reached)], r, t).cached.servers == Fetched(h, r, u)
    ensures forall a :: a in Elems(Fetched(h, r, u)) <==> exists b :: ComesFrom(h, r, u, a, b)
    ensures forall b :: Alive(h, r, u, b) ==>
              Recent(h, r, t, now, b) && Recent(WorldAfter(steps + [Ask(now, reached)], r, t).history, r, t, now, b)
    ensures (forall a :: a in Elems(Fetched(h, r, u)) ==> Alive(h, r, u, a)) <==> NoStrangers(h, r, u)
    ensures Fetched(h, r, u) == AliveList(h, r, u) <==> AllClean(AliveList(h, r, u))
  {
    var all := steps + [Ask(now, reached)];
    assert all[..|all| - 1] == steps;
    WorldInv(all, r, t);
    var w := WorldAfter(all, r, t);
    u := w.cached.lastUpdate.value;
    var k: nat :| Snapshot(w, r, u, k);
    h := w.history[..k];
    RoundTripIff(AliveList(h, r, u));
    AllAliveIff(h, r, u);
    forall a ensures a in Elems(Fetched(h, r, u)) <==> exists b :: ComesFrom(h, r, u, a, b) {
      ListedIff(h, r, u, a);
    }
    forall b | Alive(h, r, u, b) ensures Recent(h, r, t, now, b) && Recent(w.history, r, t, now, b) {
      AliveIsRecent(w.history, k, r, t, u, now, b);
    }
  }

  /** In particular, with clean addresses only, every listed server has sent a heartbeat
      of its own later than now - t - r. */
  lemma CleanStaleness(steps: seq<WorldStep>, r: int, t: int, now: int, reached: bool)
    returns (h: seq<Event>)
    requires InTime(steps + [Ask(now, reached)])
    requires FreshEnough(WorldAfter(steps, r, t).cached, t, now) || reached
    requires forall i :: 0 <= i < |steps| && steps[i].Beat? ==> Clean(steps[i].addr)
    ensures h <= WorldAfter(steps + [Ask(now, reached)], r, t).history
    ensures forall a :: a in Elems(WorldAfter(steps + [Ask(now, reached)], r, t).cached.servers) ==>
              Recent(h, r, t, now, a)
  {
    var u;
    h, u := TwoLevelStaleness(steps, r, t, now, reached);
    CleanWorld(steps + [Ask(now, reached)], r, t);
    forall b | Alive(h, r, u, b) ensures Clean(b) {
      CleanLastPut(h, b);
    }
    assert NoStrangers(h, r, u);
  }

  /** All heartbeats announced clean addresses. */
  predicate CleanHistory(h: seq<Event>) {
    forall i :: 0 <= i < |h| && h[i].Put? ==> Clean(h[i].addr)
  }

  lemma {:induction false} CleanWorld(steps: seq<WorldStep>, r: int, t: int)
    requires forall i :: 0 <= i < |steps| && steps[i].Beat? ==> Clean(steps[i].addr)
    ensures CleanHistory(WorldAfter(steps, r, t).history)
  {
    if steps != [] {
      CleanWorld(steps[..|steps| - 1], r, t);
    }
  }

  // ------------------------------------- the registry and discovery objects

  /** A registry and a discovery have gone through the given steps. */
  ghost predicate Deployed(registry: Registry, discovery: GeeRegistryDiscovery, steps: seq<WorldStep>)
    reads registry, discovery
  {
    && registry.Valid()
    && World(registry.history, discovery.View()) == WorldAfter(steps, registry.timeout, discovery.timeout)
  }

  /** A heartbeat that reaches the registry. */
  method Announce(registry: Registry, discovery: GeeRegistryDiscovery, addr: string, now: int, ghost steps: seq<WorldStep>)
    requires Deployed(registry, discovery, steps) && registry.clock <= now
    modifies registry
    ensures Deployed(registry, discovery, steps + [Beat(addr, now)]) && registry.clock == now
  {
    assert (steps + [Beat(addr, now)])[..|steps|] == steps;
    registry.PutServer(addr, now);
  }

  /** Another user of the registry asks for its list. */
  method Browse(registry: Registry, discovery: GeeRegistryDiscovery, now: int, ghost steps: seq<WorldStep>)
    returns (header: string)
    requires Deployed(registry, discovery, steps) && registry.clock <= now
    modifies registry
    ensures Deployed(registry, discovery, steps + [Other(now)]) && registry.clock == now
    ensures header == Join(AliveList(old(registry.history), registry.timeout, now))
  {
    assert (steps + [Other(now)])[..|steps|] == steps;
    var list := registry.AliveServers(now);
    header := Join(list);
  }

  /** Refresh against the registry object; `reached`: the HTTP request succeeds. */
  method RefreshFrom(registry: Registry, discovery: GeeRegistryDiscovery, now: int, reached: bool, ghost steps: seq<WorldStep>)
    returns (ok: bool)
    requires Deployed(registry, discovery, steps) && registry.clock <= now
    modifies registry, discovery`servers, discovery`lastUpdate
    ensures Deployed(registry, discovery, steps + [Ask(now, reached)]) && registry.clock <= now
    ensures ok <==> FreshEnough(old(discovery.View()), discovery.timeout, now) || reached
  {
    assert (steps + [Ask(now, reached)])[..|steps|] == steps;
    var keeps := discovery.lastUpdate.Some? && discovery.lastUpdate.value + discovery.timeout > now;
    var header := None;
    if !keeps && reached {
      var list := registry.AliveServers(now);
      header := Some(Join(list));
    }
    ok := discovery.Refresh(now, header);
  }

  /** GetAll, on the objects: after any history every server it returns is a piece of an
      address whose latest heartbeat at the registry is, with a registry timeout other
      than 0, later than now minus both timeouts. */
  method GetAll(registry: Registry, discovery: GeeRegistryDiscovery, now: int, reached: bool, ghost steps: seq<WorldStep>)
    returns (servers: Option<seq<string>>)
    requires Deployed(registry, discovery, steps) && registry.clock <= now && InTime(steps + [Ask(now, reached)])
    modifies registry, discovery`servers, discovery`lastUpdate
    ensures Deployed(registry, discovery, steps + [Ask(now, reached)]) && registry.clock <= now
    ensures servers.Some? <==> FreshEnough(old(discovery.View()), discovery.timeout, now) || reached
    ensures servers.Some? ==> forall a :: a in Elems(servers.value) ==>
              exists b :: a in Elems(Parse(b)) && Recent(registry.history, registry.timeout, discovery.timeout, now, b)
  {
    var ok := RefreshFrom(registry, discovery, now, reached, steps);
    if !ok {
      return None;
    }
    servers := Some(discovery.servers);
    ghost var r, t := registry.timeout, discovery.timeout;
    ghost var h, u := TwoLevelStaleness(steps, r, t, now, reached);
    forall a | a in Elems(discovery.servers)
      ensures exists b :: a in Elems(Parse(b)) && Recent(registry.history, r, t, now, b)
    {
      var b :| ComesFrom(h, r, u, a, b);
      assert Recent(registry.history, r, t, now, b);
    }
  }

  lemma {:induction false} AllCleanIf(list: seq<string>)
    requires forall a :: a in Elems(list) ==> Clean(a)
    ensures AllClean(list)
  {
    if list != [] {
      AllCleanIf(list[1..]);
    }
  }

  lemma {:induction false} CleanLastPut(h: seq<Event>, a: string)
    requires CleanHistory(h)
    requires LastPut(h, a).Some?
    ensures Clean(a)
  {
    if !(h[|h| - 1].Put? && h[|h| - 1].addr == a) {
      CleanLastPut(h[..|h| - 1], a);
    }
  }

  /** Servers that announce clean addresses make every list clean. */
  lemma CleanHeartbeatsSuffice(h: seq<Event>, r: int, u: int)
    requires CleanHistory(h)
    ensures AllClean(AliveList(h, r, u))
  {
    forall a | a in Elems(AliveList(h, r, u)) ensures Clean(a) {
      AliveListIs(h, r, u, a);
      CleanLastPut(h, a);
    }
    AllCleanIf(AliveList(h, r, u));
  }

  /** One heartbeat for the address "a,b" makes discovery list two servers, neither of
      which ever sent one. */
  lemma CommaListsStrangers()
    ensures var steps := [Beat("a,b", 0), Ask(0, true)];
            && WorldAfter(steps, 1, 1).cached.servers == ["a", "b"]
            && LastPut(WorldAfter(steps, 1, 1).history, "a").None?
            && LastPut(WorldAfter(steps, 1, 1).history, "b").None?
  {
    var steps, h := [Beat("a,b", 0), Ask(0, true)], [Put("a,b", 0)];
    assert [steps[0]][..0] == [] && steps[..1] == [steps[0]];
    assert WorldAfter([steps[0]], 1, 1) == World(h, Cached([], None));
    assert h[..0] == [] && (h + [Query(0)])[..1] == h;
    OnlyListed(h, "a,b");
    TwoFromOne();
  }

  lemma TwoFromOne()
    ensures Parse(Join(["a,b"])) == ["a", "b"]
  {
    assert ["a", "b"][1..] == ["b"];
    assert Join(["a", "b"]) == "a,b" == Join(["a,b"]);
    RoundTrip(["a", "b"]);
  }

  lemma OnlyListed(h: seq<Event>, a: string)
    requires h == [Put(a, 0)]
    ensures AliveList(h, 1, 0) == [a]
  {
    assert h[..0] == [];
    assert [a][1..] == [];
    forall x ensures x in Elems(AliveList(h, 1, 0)) <==> x in Elems([a]) {
      AliveListIs(h, 1, 0, x);
      assert LastPut(h, x) == if x == a then Some(0) else LastPut([], x);
    }
    assert Elems([a]) == {a};
    SortedIsUnique(AliveList(h, 1, 0), [a]);
  }

  // --------------------------------------------------------------- round robin

  /** How often position p is chosen in m picks that start with the index at `start`. */
  function Picks(start: nat, m: nat, n: nat, p: nat): nat
    requires n > 0
  {
    if m == 0 then 0
    else Picks(start, m - 1, n, p) + (if (start + m - 1) % n == p then 1 else 0)
  }

  function Count(s: seq<nat>, p: nat): nat {
    if s == [] then 0 else Count(s[..|s| - 1], p) + (if s[|s| - 1] == p then 1 else 0)
  }

  lemma {:induction false} CountIsPicks(s: seq<nat>, start: nat, n: nat, p: nat)
    requires n > 0 && forall k :: 0 <= k < |s| ==> s[k] == (start + k) % n
    ensures Count(s, p) == Picks(start, |s|, n, p)
  {
    if s != [] {
      CountIsPicks(s[..|s| - 1], start, n, p);
    }
  }

  /** How many picks until position p is next, with the index at x. */
  function Distance(x: nat, n: nat, p: nat): nat
    requires n > 0
  {
    (p - x) % n
  }

  lemma OnlyZero(d: int, n: nat)
    requires 0 - n < d * n < n
    ensures d == 0
  {
    assert d >= 1 ==> d * n >= n;
    assert d <= -1 ==> d * n <= 0 - n;
  }

  lemma Remainder(x: int, q: int, n: nat, s: nat)
    requires s < n && x == q * n + s
    ensures x % n == s
  {
    var d := x / n - q;
    assert x == (x / n) * n + x % n;
    assert d * n == s - x % n by {
      assert d * n == (x / n) * n - q * n;
    }
    OnlyZero(d, n);
    assert d * n == 0;
  }

  lemma DistanceStep(x: nat, n: nat, p: nat)
    requires p < n
    ensures x % n == p <==> Distance(x, n, p) == 0
    ensures Distance(x + 1, n, p) == if x % n == p then n - 1 else Distance(x, n, p) - 1
  {
    var y := p - x;
    var q, s := y / n, y % n;
    assert y == q * n + s;
    assert s > 0 ==> p - (x + 1) == q * n + (s - 1);
    assert s == 0 ==> p - (x + 1) == (q - 1) * n + (n - 1) by {
      assert (q - 1) * n == q * n - n;
    }
    if s > 0 {
      Remainder(p - (x + 1), q, n, s - 1);
    } else {
      Remainder(p - (x + 1), q - 1, n, n - 1);
    }
    assert x == (x / n) * n + x % n;
    if x % n == p {
      assert y == (-(x / n)) * n + 0 by { assert (-(x / n)) * n == -((x / n) * n); }
      Remainder(y, -(x / n), n, 0);
    }
    if s == 0 {
      assert x == (-q) * n + p by { assert (-q) * n == -(q * n); }
      Remainder(x, -q, n, p);
    }
  }

  /** Picks(start, m, n, p) * n, by addition. */
  function Turns(start: nat, m: nat, n: nat, p: nat): nat
    requires n > 0
  {
    if m == 0 then 0
    else Turns(start, m - 1, n, p) + (if (start + m - 1) % n == p then n else 0)
  }

  lemma {:induction false} TurnsArePicks(start: nat, m: nat, n: nat, p: nat)
    requires n > 0
    ensures Turns(start, m, n, p) == Picks(start, m, n, p) * n
  {
    if m > 0 {
      TurnsArePicks(start, m - 1, n, p);
      Distribute(Picks(start, m - 1, n, p), n);
    }
  }

  lemma Distribute(a: int, n: nat)
    ensures (a + 1) * n == a * n + n
  {
  }

  /** Each pick of p buys a full turn of distance. */
  lemma {:induction false} PicksBalance(start: nat, m: nat, n: nat, p: nat)
    requires p < n
    ensures Turns(start, m, n, p) == m + Distance(start + m, n, p) - Distance(start, n, p)
  {
    if m > 0 {
      PicksBalance(start, m - 1, n, p);
      DistanceStep(start + m - 1, n, p);
    }
  }

  lemma DistanceIsSmall(x: nat, n: nat, p: nat)
    requires n > 0
    ensures Distance(x, n, p) < n
  {
  }

  lemma LessQuotient(a: int, b: int, n: nat)
    requires a * n < b * n
    ensures a < b
  {
    assert b <= a ==> b * n <= a * n;
  }

  /** A count within one turn of m is m/n rounded down or up. */
  lemma Rounded(m: nat, n: nat, k: nat)
    requires n > 0 && m - n < k * n < m + n
    ensures m / n <= k <= (m + n - 1) / n
  {
    var up := (m + n - 1) / n;
    assert (m / n) * n <= m;
    Distribute(k, n);
    LessQuotient(m / n, k + 1, n);
    assert m + n - 1 < up * n + n;
    Distribute(up, n);
    LessQuotient(k, up + 1, n);
  }

  /** Fairness: over any window of m round-robin picks on an unchanged list of n
      servers, every position is chosen m/n times, rounded down or up. */
  lemma RoundRobinIsFair(start: nat, m: nat, n: nat, p: nat)
    requires p < n
    ensures m / n <= Picks(start, m, n, p) <= (m + n - 1) / n
  {
    PicksBalance(start, m, n, p);
    TurnsArePicks(start, m, n, p);
    DistanceIsSmall(start, n, p);
    DistanceIsSmall(start + m, n, p);
    Rounded(m, n, Picks(start, m, n, p));
  }
}
