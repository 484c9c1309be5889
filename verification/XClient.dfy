/** rpc/xclient/xclient.go: one call to every server at once, and the table of open
    connections. */
module XClient {

  import opened Wrappers

  /** How one server's call ended. */
  datatype Completion = Success(reply: string) | Failure(err: string)

  /** The variables shared by the goroutines of Broadcast: e, whether *reply still has to
      be set, what it was set to, and whether cancel was called. */
  datatype Shared = Shared(e: Option<string>, replyDone: bool, reply: Option<string>, cancelled: bool)

  /** One goroutine's critical section. */
  function Complete(s: Shared, c: Completion): Shared {
    match c
    case Failure(err) => if s.e.None? then s.(e := Some(err), cancelled := true) else s
    case Success(reply) => if s.replyDone then s else s.(replyDone := true, reply := Some(reply))
  }

  function FirstFailure(cs: seq<Completion>): Option<string> {
    if cs == [] then None
    else if cs[0].Failure? then Some(cs[0].err)
    else FirstFailure(cs[1..])
  }

  function FirstSuccess(cs: seq<Completion>): Option<string> {
    if cs == [] then None
    else if cs[0].Success? then Some(cs[0].reply)
    else FirstSuccess(cs[1..])
  }

  /** Broadcast, for the goroutines' critical sections in the order `cs` in which they
      get the mutex. `wanted`: the caller passed somewhere to put the reply. */
  method Broadcast(cs: seq<Completion>, wanted: bool) returns (e: Option<string>, reply: Option<string>, cancelled: bool)
    ensures e == FirstFailure(cs)
    ensures reply == if wanted then FirstSuccess(cs) else None
    ensures cancelled <==> e.Some?
  {
    var s := Shared(None, !wanted, None, false);
    for i := 0 to |cs|
      invariant FirstFailure(cs) == if s.e.Some? then s.e else FirstFailure(cs[i..])
      invariant wanted ==> FirstSuccess(cs) == if s.reply.Some? then s.reply else FirstSuccess(cs[i..])
      invariant s.cancelled <==> s.e.Some?
      invariant !wanted ==> s.replyDone && s.reply.None?
      invariant wanted ==> (s.replyDone <==> s.reply.Some?)
    {
      assert cs[i..][1..] == cs[i + 1..];
      s := Complete(s, cs[i]);
    }
    return s.e, s.reply, s.cancelled;
  }

  predicate AllSucceed(cs: seq<Completion>) {
    forall i :: 0 <= i < |cs| ==> cs[i].Success?
  }

  /** The error is nil exactly when all calls succeeded; otherwise it is the error of
      the first failure in lock order, and all before it succeeded. */
  lemma {:induction false} NilIffAllSucceed(cs: seq<Completion>)
    ensures FirstFailure(cs).None? <==> AllSucceed(cs)
    ensures FirstFailure(cs).Some? ==>
      exists i :: 0 <= i < |cs| && cs[i] == Failure(FirstFailure(cs).value) && AllSucceed(cs[..i])
  {
    if cs != [] {
      if cs[0].Failure? {
        assert cs[..0] == [];
        assert cs[0] == Failure(FirstFailure(cs).value);
      } else {
        var tail := cs[1..];
        NilIffAllSucceed(tail);
        if AllSucceed(tail) {
          assert forall i :: 0 < i < |cs| ==> cs[i] == tail[i - 1];
        } else {
          var i :| 0 <= i < |tail| && tail[i] == Failure(FirstFailure(tail).value) && AllSucceed(tail[..i]);
          assert cs[i + 1] == tail[i];
          var front := cs[..i + 1];
          assert forall j :: 0 < j < |front| ==> front[j] == tail[..i][j - 1];
          assert AllSucceed(front);
        }
      }
    }
  }

  predicate AllFail(cs: seq<Completion>) {
    forall i :: 0 <= i < |cs| ==> cs[i].Failure?
  }

  /** The reply is set unless all calls failed, and then by the first success. */
  lemma {:induction false} ReplyFromFirstSuccess(cs: seq<Completion>)
    ensures FirstSuccess(cs).None? <==> AllFail(cs)
    ensures FirstSuccess(cs).Some? ==>
      exists i :: 0 <= i < |cs| && cs[i] == Success(FirstSuccess(cs).value) && AllFail(cs[..i])
  {
    if cs != [] {
      if cs[0].Success? {
        assert cs[..0] == [];
        assert cs[0] == Success(FirstSuccess(cs).value);
      } else {
        var tail := cs[1..];
        ReplyFromFirstSuccess(tail);
        if AllFail(tail) {
          assert forall i :: 0 < i < |cs| ==> cs[i] == tail[i - 1];
        } else {
          var i :| 0 <= i < |tail| && tail[i] == Success(FirstSuccess(tail).value) && AllFail(tail[..i]);
          assert cs[i + 1] == tail[i];
          var front := cs[..i + 1];
          assert forall j :: 0 < j < |front| ==> front[j] == tail[..i][j - 1];
          assert AllFail(front);
        }
      }
    }
  }

  /** Whether Broadcast reports an error does not depend on the completion order. */
  lemma OrderDoesNotDecide(a: seq<Completion>, b: seq<Completion>)
    requires multiset(a) == multiset(b)
    ensures FirstFailure(a).None? <==> FirstFailure(b).None?
  {
    NilIffAllSucceed(a);
    NilIffAllSucceed(b);
    if AllSucceed(a) {
      SameSuccess(a, b);
    }
    if AllSucceed(b) {
      SameSuccess(b, a);
    }
  }

  lemma SameSuccess(a: seq<Completion>, b: seq<Completion>)
    requires multiset(a) == multiset(b) && AllSucceed(a)
    ensures AllSucceed(b)
  {
    forall i | 0 <= i < |b| ensures b[i].Success? {
      assert b[i] in multiset(a);
    }
  }

  // ------------------------------------------------------------- connections

  /** An rpc.Client: closed by Close, shut down by its own receive loop at any time. */
  class Conn {
    const addr: string
    var closing: bool
    var shutdown: bool

    constructor (addr: string)
      ensures this.addr == addr && !closing && !shutdown
    {
      this.addr, closing, shutdown := addr, false, false;
    }
  }

  class Connections {
    var clients: map<string, Conn>
    ghost var dialled: set<Conn> // every client ever dialled

    /** Every client ever dialled is closed, or is the mapped one for its address. */
    ghost predicate Accounted()
      reads this, dialled
    {
      && (forall a :: a in clients ==> clients[a] in dialled && clients[a].addr == a)
      && (forall c :: c in dialled ==> c.closing || (c.addr in clients && clients[c.addr] == c))
    }

    constructor ()
      ensures Accounted() && dialled == {}
    {
      clients, dialled := map[], {};
    }

    /** `reached`: XDial succeeds. */
    method Dial(addr: string, reached: bool) returns (client: Conn?)
      requires Accounted()
      modifies this, dialled
      ensures Accounted() && old(dialled) <= dialled && fresh(dialled - old(dialled))
      ensures client != null ==> client.addr == addr && addr in clients && clients[addr] == client
                                 && !client.closing && !client.shutdown
      ensures client == null ==> !reached && addr !in clients
      ensures addr in old(clients) && !old(clients[addr].shutdown) && !old(clients[addr].closing) ==>
                client == old(clients)[addr] && clients == old(clients) && dialled == old(dialled)
      ensures clients - {addr} == old(clients) - {addr}
      ensures forall c :: c in old(dialled) && c.addr != addr ==> c.closing == old(c.closing)
    {
      if addr in clients && !clients[addr].shutdown && !clients[addr].closing {
        return clients[addr];
      }
      if addr in clients {
        clients[addr].closing := true;
        clients := clients - {addr};
      }
      if !reached {
        return null;
      }
      client := new Conn(addr);
      clients := clients[addr := client];
      dialled := dialled + {client};
    }

    method Close()
      requires Accounted()
      modifies this, dialled
      ensures Accounted() && dialled == old(dialled) && clients == map[]
      ensures forall c :: c in dialled ==> c.closing
    {
      var todo := clients.Keys;
      while todo != {}
        invariant Accounted() && dialled == old(dialled) && todo == clients.Keys
        decreases todo
      {
        var key :| key in todo;
        todo := todo - {key};
        clients[key].closing := true;
        clients := clients - {key};
      }
    }
  }
}
