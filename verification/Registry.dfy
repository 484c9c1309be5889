/** The heartbeat registry of rpc/registry/registry.go. Time is an integer that never
    decreases. */
module Registry {
  import opened Wrappers
  import opened Strings

  /** What happened at a registry: a heartbeat, or a listing. */
  datatype Event = Put(addr: string, at: int) | Query(at: int)

  predicate Ordered(h: seq<Event>) {
    forall i, j :: 0 <= i < j < |h| ==> h[i].at <= h[j].at
  }

  /** Nothing in the history is later than `now`. */
  predicate Upto(h: seq<Event>, now: int) {
    forall i :: 0 <= i < |h| ==> h[i].at <= now
  }

  function LastPut(h: seq<Event>, addr: string): Option<int> {
    if h == [] then None
    else
      var e := h[|h| - 1];
      if e.Put? && e.addr == addr then Some(e.at) else LastPut(h[..|h| - 1], addr)
  }

  /** Listed by definition: the latest heartbeat has not timed out. */
  predicate Alive(h: seq<Event>, timeout: int, now: int, addr: string) {
    LastPut(h, addr).Some? && (timeout == 0 || LastPut(h, addr).value + timeout > now)
  }

  function Addresses(h: seq<Event>): set<string> {
    if h == [] then {}
    else Addresses(h[..|h| - 1]) + (if h[|h| - 1].Put? then {h[|h| - 1].addr} else {})
  }

  /** The answer a history demands. */
  ghost function AliveList(h: seq<Event>, timeout: int, now: int): seq<string> {
    InOrder(set a | a in Addresses(h) && Alive(h, timeout, now, a))
  }

  lemma {:induction false} PutAddresses(h: seq<Event>, a: string)
    ensures a in Addresses(h) <==> LastPut(h, a).Some?
  {
    if h != [] {
      PutAddresses(h[..|h| - 1], a);
    }
  }

  lemma AliveListIs(h: seq<Event>, timeout: int, now: int, a: string)
    ensures a in Elems(AliveList(h, timeout, now)) <==> Alive(h, timeout, now, a)
  {
    PutAddresses(h, a);
  }

  lemma {:induction false} LastPutIsInHistory(h: seq<Event>, a: string, now: int)
    requires Upto(h, now) && LastPut(h, a).Some?
    ensures LastPut(h, a).value <= now
  {
    if !(h[|h| - 1].Put? && h[|h| - 1].addr == a) {
      LastPutIsInHistory(h[..|h| - 1], a, now);
    }
  }

  lemma {:induction false} LaterPut(h: seq<Event>, i: nat)
    requires Ordered(h) && i < |h| && h[i].Put?
    ensures LastPut(h, h[i].addr).Some? && LastPut(h, h[i].addr).value >= h[i].at
  {
    if i < |h| - 1 {
      LaterPut(h[..|h| - 1], i);
    }
  }

  /** The last heartbeat of an address only moves forward. */
  lemma {:induction false} LastPutGrows(h: seq<Event>, more: seq<Event>, a: string)
    requires Ordered(h + more) && LastPut(h, a).Some?
    ensures LastPut(h + more, a).Some? && LastPut(h + more, a).value >= LastPut(h, a).value
  {
    if more == [] {
      assert h + more == h;
    } else {
      var all, front := h + more, h + more[..|more| - 1];
      assert all[..|all| - 1] == front;
      LastPutGrows(h, more[..|more| - 1], a);
      LastPutIsInHistory(front, a, all[|all| - 1].at);
    }
  }

  lemma {:induction false} LastPutAt(h: seq<Event>, a: string) returns (i: nat)
    requires LastPut(h, a).Some?
    ensures i < |h| && h[i] == Put(a, LastPut(h, a).value)
  {
    var last := h[|h| - 1];
    if last.Put? && last.addr == a {
      i := |h| - 1;
    } else {
      i := LastPutAt(h[..|h| - 1], a);
    }
  }

  /** An address is alive if and only if some heartbeat of it has not timed out; with
      timeout 0, once it has sent one. */
  lemma AliveIff(h: seq<Event>, timeout: int, now: int, a: string)
    requires Ordered(h)
    ensures Alive(h, timeout, now, a) <==>
              exists i :: 0 <= i < |h| && h[i] == Put(a, h[i].at) && (timeout == 0 || now < h[i].at + timeout)
  {
    if LastPut(h, a).Some? {
      var i := LastPutAt(h, a);
    }
    forall i | 0 <= i < |h| && h[i] == Put(a, h[i].at) && (timeout == 0 || now < h[i].at + timeout)
      ensures Alive(h, timeout, now, a)
    {
      LaterPut(h, i);
    }
  }

  // -------------------------------------------------------------- heartbeats

  const MINUTE := 60_000_000_000
  const DEFAULT_TIMEOUT := 5 * MINUTE

  /** The interval Heartbeat uses for a requested duration. */
  function Period(duration: int): int {
    if duration == 0 then DEFAULT_TIMEOUT - MINUTE else duration
  }

  /** A server that has sent a heartbeat within the last `period`, shorter than the
      timeout, is listed, whatever was deleted before. */
  lemma HeartbeatsKeepListed(h: seq<Event>, addr: string, timeout: int, now: int, period: int, i: nat)
    requires Ordered(h) && i < |h| && h[i] == Put(addr, h[i].at)
    requires now <= h[i].at + period && period < timeout
    ensures Alive(h, timeout, now, addr) && addr in Elems(AliveList(h, timeout, now))
  {
    LaterPut(h, i);
    AliveListIs(h, timeout, now, addr);
  }

  /** The default period leaves enough time against the default timeout. */
  lemma DefaultPeriodSuffices(h: seq<Event>, addr: string, now: int, i: nat)
    requires Ordered(h) && i < |h| && h[i] == Put(addr, h[i].at) && now <= h[i].at + Period(0)
    ensures addr in Elems(AliveList(h, DEFAULT_TIMEOUT, now))
  {
    HeartbeatsKeepListed(h, addr, DEFAULT_TIMEOUT, now, Period(0), i);
  }

  // ------------------------------------------------------------ the registry

  /** The map agrees with the history except for entries that timed out before. */
  ghost predicate Represents(servers: map<string, int>, h: seq<Event>, timeout: int, now: int) {
    && (forall a :: a in servers ==> LastPut(h, a) == Some(servers[a]))
    && (forall a :: a !in servers && LastPut(h, a).Some? ==>
          timeout != 0 && LastPut(h, a).value + timeout <= now)
  }

  class Registry {
    const timeout: int
    var servers: map<string, int> // address to start time
    ghost var history: seq<Event>
    ghost var clock: int

    ghost predicate Valid()
      reads this
    {
      Ordered(history) && Upto(history, clock) && Represents(servers, history, timeout, clock)
    }

    constructor (timeout: int, ghost now: int)
      ensures Valid() && this.timeout == timeout && history == [] && clock == now
    {
      this.timeout, servers := timeout, map[];
      history, clock := [], now;
    }

    method PutServer(addr: string, now: int)
      requires Valid() && clock <= now
      modifies this
      ensures Valid() && history == old(history) + [Put(addr, now)] && clock == now
    {
      servers := servers[addr := now];
      ghost var before := history;
      history := history + [Put(addr, now)];
      clock := now;
      assert history[..|history| - 1] == before;
    }

    /** The loop of aliveServers: keep and collect what is alive, delete the rest. */
    method Sweep(now: int) returns (found: seq<string>)
      requires Represents(servers, history, timeout, now)
      modifies this`servers
      ensures Represents(servers, history, timeout, now)
      ensures Repetitionless(found)
      ensures forall a :: a in Elems(found) <==> Alive(history, timeout, now, a)
    {
      found := [];
      var todo := servers.Keys;
      while todo != {}
        invariant todo <= servers.Keys
        invariant Represents(servers, history, timeout, now)
        invariant Repetitionless(found) && Elems(found) == servers.Keys - todo
        invariant forall a :: a in Elems(found) ==> Alive(history, timeout, now, a)
        decreases todo
      {
        var addr :| addr in todo;
        todo := todo - {addr};
        if timeout == 0 || servers[addr] + timeout > now {
          AppendNew(found, addr);
          found := found + [addr];
        } else {
          servers := servers - {addr};
        }
      }
    }

    /** Lazy expiry: the answer depends on the history of heartbeats alone. */
    method AliveServers(now: int) returns (list: seq<string>)
      requires Valid() && clock <= now
      modifies this
      ensures Valid() && history == old(history) + [Query(now)] && clock == now
      ensures StrictlySorted(list)
      ensures forall a :: a in Elems(list) <==> Alive(old(history), timeout, now, a)
      ensures list == AliveList(old(history), timeout, now)
    {
      ghost var h := history;
      var found := Sweep(now);
      list := Sort(found);
      forall a ensures a in Elems(AliveList(h, timeout, now)) <==> a in Elems(list) {
        AliveListIs(h, timeout, now, a);
      }
      SortedIsUnique(list, AliveList(h, timeout, now));
      history := history + [Query(now)];
      clock := now;
      assert history[..|history| - 1] == h;
    }
  }
}
