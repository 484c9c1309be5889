/** The mutex-protected methods of rpc/client.go on the table of pending calls, as updates
    of Call objects, proved to be the steps of the protocol. */
module RpcClient {
  import opened Wrappers
  import P = RpcProtocol

  class Call {
    const meth: string
    const args: string
    const room: bool // the Done channel holds more than one
    var num: nat
    var error: Option<string>
    var signals: nat // how often it was put on its Done channel
    ghost const id: nat // the protocol's name for this call

    constructor (meth: string, args: string, room: bool, ghost id: nat)
      ensures this.meth == meth && this.args == args && this.room == room && this.id == id
      ensures num == 0 && error == None && signals == 0
    {
      this.meth, this.args, this.room, this.id := meth, args, room, id;
      num, error, signals := 0, None, 0;
    }

    /** The object shows a call of the protocol. */
    ghost predicate Shows(c: P.Call)
      reads this
    {
      meth == c.meth && args == c.args && room == c.room && num == c.num && error == c.error && signals == c.signals
    }

    method Finish(err: Option<string>)
      modifies this`error, this`signals
      ensures error == err && signals == old(signals) + 1
    {
      error := err;
      signals := signals + 1;
    }
  }

  class Client {
    var next: nat
    var pending: map<nat, Call>
    var shutdown: bool
    ghost var model: P.Client // the protocol's client

    /** The entry under number n is the protocol's, filed under its own number. */
    ghost predicate Entry(n: nat)
      requires n in pending
      reads this, pending[n]
    {
      var call := pending[n];
      && n in model.pending && model.pending[n] == call.id && call.id in model.calls
      && call.num == n
    }

    /** All numbers in the table were issued and are below the next one, which is 0 once
        it has wrapped. So it is until a call is registered after that. */
    ghost predicate Unwrapped()
      reads this
    {
      forall n :: n in pending ==> n < next || next == 0
    }

    ghost predicate Valid()
      reads this, pending.Values
    {
      && next == model.next < P.TWO_TO_THE_64 && shutdown == model.recv.Stopped?
      && pending.Keys == model.pending.Keys
      && forall n :: n in pending ==> Entry(n) && pending[n].Shows(model.calls[pending[n].id])
    }

    constructor ()
      ensures Valid() && Unwrapped() && model == P.Init({}, false).client
    {
      next, pending, shutdown := 1, map[], false;
      model := P.Init({}, false).client;
    }

    method RegisterCall(call: Call) returns (num: nat)
      requires Valid() && call !in pending.Values && call.id !in model.calls
      requires call.error == None && call.signals == 0
      modifies this, call`num
      ensures Valid() && model == P.RegisterCall(old(model), call.id, call.meth, call.args, call.room)
      ensures num == old(next) == call.num && pending == old(pending)[num := call]
      ensures old(Unwrapped()) && old(next) != 0 ==> num !in old(pending) && Unwrapped()
    {
      ghost var was, before := pending, model;
      num := next;
      call.num := num;
      pending := pending[num := call];
      model := P.RegisterCall(model, call.id, call.meth, call.args, call.room);
      next := (num + 1) % P.TWO_TO_THE_64;
      WrapAfter(num);
      forall n | n in pending ensures Entry(n) && pending[n].Shows(model.calls[pending[n].id]) {
        if n != num {
          assert n in was && pending[n] == was[n] != call;
          assert model.calls[was[n].id] == before.calls[was[n].id];
        }
      }
    }

    method RemoveCall(num: nat) returns (call: Call?)
      requires Valid()
      modifies this`pending, this`model
      ensures Valid() && model == P.RemoveCall(old(model), num)
      ensures call == if num in old(pending) then old(pending)[num] else null
      ensures pending == old(pending) - {num} && (old(Unwrapped()) ==> Unwrapped())
    {
      call := null;
      if num in pending {
        assert Entry(num);
        call := pending[num];
        pending := pending - {num};
        model := P.RemoveCall(model, num);
      }
    }

    /** Every pending call is finished once, and none leaves the table. */
    method TerminateCalls(err: Option<string>)
      requires Valid()
      modifies this`shutdown, this`model, pending.Values`error, pending.Values`signals
      ensures Valid() && model == P.TerminateCalls(old(model), err)
      ensures forall n :: n in pending ==> pending[n].error == err && pending[n].signals == old(pending[n].signals) + 1
    {
      FinishAll(err);
      ghost var before := model;
      model := P.TerminateCalls(model, err);
      shutdown := true;
      forall n | n in pending ensures Entry(n) && pending[n].Shows(model.calls[pending[n].id]) {
        TerminatedAt(before, err, n);
      }
    }

    /** The loop over the table. */
    method FinishAll(err: Option<string>)
      requires forall n :: n in pending ==> pending[n].num == n
      modifies pending.Values`error, pending.Values`signals
      ensures forall n :: n in pending ==> pending[n].error == err && pending[n].signals == old(pending[n].signals) + 1
    {
      var todo := pending.Keys;
      while todo != {}
        invariant todo <= pending.Keys
        invariant forall n :: n in pending && n in todo ==> pending[n].signals == old(pending[n].signals)
        invariant forall n :: n in pending && n !in todo ==>
                    pending[n].error == err && pending[n].signals == old(pending[n].signals) + 1
        decreases todo
      {
        var n :| n in todo;
        todo := todo - {n};
        pending[n].Finish(err);
      }
    }
  }

  lemma WrapAfter(n: nat)
    requires n < P.TWO_TO_THE_64
    ensures (n + 1) % P.TWO_TO_THE_64 == if n + 1 == P.TWO_TO_THE_64 then 0 else n + 1
  {
  }

  /** What the protocol's terminateCalls does to a call in the table. */
  lemma TerminatedAt(c: P.Client, err: Option<string>, n: nat)
    requires n in c.pending && c.pending[n] in c.calls
    ensures var id, d := c.pending[n], P.TerminateCalls(c, err);
            && id in d.calls
            && d.calls[id] == c.calls[id].(error := err, signals := c.calls[id].signals + 1)
  {
  }
}
