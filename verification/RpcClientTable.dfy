/** The client's table of pending calls: ownership over every interleaving of
    registration, responses, failed writes, cancellation and termination. */
module RpcClientTable {
  import opened Wrappers
  import opened RpcProtocol

  /** Numbers and calls correspond one to one, and the table is a part of that. The next
      number is 0 once all others have been issued. */
  ghost predicate NumbersOk(c: Client) {
    && c.next < TWO_TO_THE_64
    && (forall n :: n in c.issued ==> 1 <= n < TWO_TO_THE_64 && (n < c.next || c.next == 0))
    && (forall n :: n in c.issued ==> c.issued[n] in c.calls && c.calls[c.issued[n]].num == n)
    && (forall id :: id in c.calls ==> c.calls[id].num in c.issued && c.issued[c.calls[id].num] == id)
    && (forall n :: n in c.pending ==> n in c.issued && c.pending[n] == c.issued[n])
  }

  /** The call's write failed and `send` has called removeCall. */
  predicate SendFailed(call: Call) { call.sending == SendReturned(true) || call.sending.Blocked? }

  /** A call that was pending when terminateCalls ran: signalled then, and once more when
      its write fails afterwards and the Done channel has room. */
  predicate LeftOk(c: Client, call: Call) {
    && c.recv.Stopped? && call.reply.None?
    && (if SendFailed(call) then
          call.error.Some? && (call.sending.Blocked? <==> !call.room) && call.signals == (if call.room then 2 else 1)
        else call.signals == 1 && call.error == c.recv.err)
    && (call.sending.Registered? || call.sending.WriteFailed? ==> call.taken == 0)
  }

  /** Any other call: signalled by whoever took it. */
  predicate OtherOk(call: Call) {
    && !call.sending.Blocked? && call.signals <= call.taken
    && (call.reply.Some? ==> call.signals == 1 && call.error.None?)
    && (call.signals == 0 ==> call.error.None?)
    && (call.signals > 0 && call.error.None? ==> call.reply.Some?)
  }

  /** One call's bookkeeping. */
  predicate CallOk(c: Client, id: nat)
    requires id in c.calls
  {
    var call := c.calls[id];
    && call.taken <= 1 && (call.taken == 0 <==> call.num in c.pending)
    && (SendFailed(call) ==> call.taken == 1)
    && (if call.num in c.left then LeftOk(c, call) else OtherOk(call))
    && (c.recv.Taken? && c.recv.id == id ==> call.taken == 1 && call.signals == 0)
    && (!c.recv.Ending? && !c.recv.Stopped? && call.signals > 0 && call.sending != SendReturned(true) ==>
          call.reply.Some?)
  }

  predicate RecvOk(c: Client) {
    && c.left <= c.issued.Keys && (!c.recv.Stopped? ==> c.left == {})
    && (c.recv.Taken? ==> c.recv.id in c.calls && c.recv.head.Head? && c.recv.head.num == c.calls[c.recv.id].num)
  }

  ghost predicate Inv(c: Client) {
    && NumbersOk(c) && RecvOk(c)
    && forall id :: id in c.calls ==> CallOk(c, id)
  }

  /** Only registration touches identities; otherwise the table can only shrink. */
  ghost predicate SameCalls(c: Client, d: Client) {
    && d.next == c.next && d.issued == c.issued && d.calls.Keys == c.calls.Keys
    && (forall id :: id in c.calls ==>
          d.calls[id].num == c.calls[id].num && d.calls[id].meth == c.calls[id].meth
          && d.calls[id].args == c.calls[id].args)
    && (forall n :: n in d.pending ==> n in c.pending && d.pending[n] == c.pending[n])
  }

  /** Steps that call removeCall. */
  predicate Removes(step: ClientStep) { step.TakeFailed? || step.Cancel? || step.RecvTake? }

  lemma RemoveKeeps(c: Client, num: nat)
    ensures SameCalls(c, RemoveCall(c, num))
  {
  }

  lemma FinishKeeps(c: Client, id: nat, error: Option<string>)
    requires id in c.calls
    ensures SameCalls(c, Finish(c, id, error))
  {
  }

  lemma SentKeeps(c: Client, id: nat, sending: Sending)
    requires id in c.calls
    ensures SameCalls(c, Sent(c, id, sending))
  {
  }

  lemma SameTwice(c: Client, d: Client, e: Client)
    requires SameCalls(c, d) && SameCalls(d, e)
    ensures SameCalls(c, e)
  {
  }

  lemma RemoveSent(c: Client, id: nat, sending: Sending, num: nat)
    requires id in c.calls
    ensures SameCalls(c, RemoveCall(Sent(c, id, sending), num))
  {
    SentKeeps(c, id, sending);
    RemoveKeeps(Sent(c, id, sending), num);
    SameTwice(c, Sent(c, id, sending), RemoveCall(Sent(c, id, sending), num));
  }

  lemma FailedKeeps(c: Client, id: nat, error: Option<string>)
    requires id in c.calls
    ensures SameCalls(c, Failed(c, id, error))
  {
  }

  lemma GiveUpKeeps(c: Client, id: nat, text: string)
    requires id in c.calls
    ensures SameCalls(c, GiveUp(c, id, text))
  {
    var num := c.calls[id].num;
    if num in c.pending && c.pending[num] in c.calls {
      var who := c.pending[num];
      var sending := if Full(c.calls[who]) then Blocked else SendReturned(true);
      var d := RemoveCall(Sent(c, id, sending), num);
      RemoveSent(c, id, sending, num);
      if Full(c.calls[who]) {
        FailedKeeps(d, who, Some(text));
      } else {
        FinishKeeps(d, who, Some(text));
      }
      SameTwice(c, d, GiveUp(c, id, text));
    } else {
      SentKeeps(c, id, SendReturned(true));
    }
  }

  lemma IdentityRemoves(c: Client, req: Chan, resp: Chan, step: ClientStep)
    requires ClientEnabled(c, req, resp, step) && Removes(step)
    ensures SameCalls(c, ClientDo(c, req, resp, step).client)
  {
    match step
    case TakeFailed(id, text) => GiveUpKeeps(c, id, text);
    case Cancel(id) => RemoveKeeps(c, c.calls[id].num);
    case RecvTake => RemoveKeeps(c, c.recv.head.num);
  }

  lemma IdentityOther(c: Client, req: Chan, resp: Chan, step: ClientStep)
    requires ClientEnabled(c, req, resp, step) && !step.Register? && !Removes(step)
    ensures SameCalls(c, ClientDo(c, req, resp, step).client)
  {
  }

  lemma IdentityStep(c: Client, req: Chan, resp: Chan, step: ClientStep)
    requires ClientEnabled(c, req, resp, step) && !step.Register?
    ensures SameCalls(c, ClientDo(c, req, resp, step).client)
  {
    if Removes(step) {
      IdentityRemoves(c, req, resp, step);
    } else {
      IdentityOther(c, req, resp, step);
    }
  }

  lemma SameNumbers(c: Client, d: Client)
    requires NumbersOk(c) && SameCalls(c, d)
    ensures NumbersOk(d)
  {
  }

  lemma NumbersRegister(c: Client, id: nat, meth: string, args: string, room: bool)
    requires NumbersOk(c) && id !in c.calls && c.next != 0
    ensures NumbersOk(RegisterCall(c, id, meth, args, room))
    ensures c.next !in c.issued && c.next !in c.pending
  {
  }

  lemma NumbersStep(c: Client, req: Chan, resp: Chan, step: ClientStep)
    requires NumbersOk(c) && ClientEnabled(c, req, resp, step)
    ensures NumbersOk(ClientDo(c, req, resp, step).client)
  {
    if step.Register? {
      NumbersRegister(c, step.id, step.meth, step.args, step.room);
    } else {
      IdentityStep(c, req, resp, step);
      SameNumbers(c, ClientDo(c, req, resp, step).client);
    }
  }

  lemma RecvTakes(c: Client, req: Chan, resp: Chan)
    requires NumbersOk(c) && RecvOk(c) && ClientEnabled(c, req, resp, RecvTake)
    ensures RecvOk(ClientDo(c, req, resp, RecvTake).client)
  {
  }

  lemma OnlyTerminateLeaves(c: Client, req: Chan, resp: Chan, step: ClientStep)
    requires ClientEnabled(c, req, resp, step) && !step.Terminate?
    ensures ClientDo(c, req, resp, step).client.left == c.left
  {
  }

  /** Only RecvTake hands the receive loop a call, and the loop stops for good. */
  lemma RecvKept(c: Client, req: Chan, resp: Chan, step: ClientStep)
    requires ClientEnabled(c, req, resp, step) && !step.RecvTake?
    ensures var d := ClientDo(c, req, resp, step).client;
            (d.recv.Taken? ==> d.recv == c.recv) && (c.recv.Stopped? ==> d.recv.Stopped?)
  {
  }

  lemma RecvStep(c: Client, req: Chan, resp: Chan, step: ClientStep)
    requires NumbersOk(c) && RecvOk(c) && ClientEnabled(c, req, resp, step)
    ensures RecvOk(ClientDo(c, req, resp, step).client)
  {
    if step.RecvTake? {
      RecvTakes(c, req, resp);
    } else if !step.Register? && !step.Terminate? {
      IdentityStep(c, req, resp, step);
      OnlyTerminateLeaves(c, req, resp, step);
      RecvKept(c, req, resp, step);
    }
  }

  /** The effect of a failed write on its own call and on the others. */
  lemma GiveUpIs(c: Client, who: nat, text: string)
    requires NumbersOk(c) && who in c.calls
    ensures var d, call := GiveUp(c, who, text), c.calls[who];
            && d.recv == c.recv && d.left == c.left && d.pending == c.pending - {call.num}
            && d.calls == c.calls[who :=
                 if call.num !in c.pending then call.(sending := SendReturned(true))
                 else if Full(call) then
                   call.(sending := Blocked, taken := call.taken + 1, error := Some(text))
                 else call.(sending := SendReturned(true), taken := call.taken + 1,
                            error := Some(text), signals := call.signals + 1)]
  {
  }

  lemma TakeFailedStep(c: Client, req: Chan, resp: Chan, who: nat, text: string, id: nat)
    requires Inv(c) && ClientEnabled(c, req, resp, TakeFailed(who, text)) && id in c.calls
    ensures id in ClientDo(c, req, resp, TakeFailed(who, text)).client.calls
    ensures CallOk(ClientDo(c, req, resp, TakeFailed(who, text)).client, id)
  {
    assert CallOk(c, id);
    assert CallOk(c, who);
    GiveUpIs(c, who, text);
  }

  lemma CancelStep(c: Client, req: Chan, resp: Chan, who: nat, id: nat)
    requires Inv(c) && ClientEnabled(c, req, resp, Cancel(who)) && id in c.calls
    ensures id in ClientDo(c, req, resp, Cancel(who)).client.calls
    ensures CallOk(ClientDo(c, req, resp, Cancel(who)).client, id)
  {
    assert CallOk(c, id);
  }

  lemma RecvTakeStep(c: Client, req: Chan, resp: Chan, id: nat)
    requires Inv(c) && ClientEnabled(c, req, resp, RecvTake) && id in c.calls
    ensures id in ClientDo(c, req, resp, RecvTake).client.calls
    ensures CallOk(ClientDo(c, req, resp, RecvTake).client, id)
  {
    assert CallOk(c, id);
  }

  lemma SendingStep(c: Client, req: Chan, resp: Chan, step: ClientStep, id: nat)
    requires Inv(c) && ClientEnabled(c, req, resp, step) && (step.Register? || step.Write?)
    requires id in ClientDo(c, req, resp, step).client.calls
    ensures CallOk(ClientDo(c, req, resp, step).client, id)
  {
    if id in c.calls {
      assert CallOk(c, id);
    }
  }

  lemma ReceiverStep(c: Client, req: Chan, resp: Chan, step: ClientStep, id: nat)
    requires Inv(c) && ClientEnabled(c, req, resp, step) && id in c.calls
    requires !step.Register? && !step.Write? && !Removes(step) && !step.Terminate?
    ensures id in ClientDo(c, req, resp, step).client.calls
    ensures CallOk(ClientDo(c, req, resp, step).client, id)
  {
    assert CallOk(c, id);
  }

  lemma TerminateStep(c: Client, req: Chan, resp: Chan, id: nat)
    requires Inv(c) && c.recv.Ending? && id in c.calls
    ensures CallOk(ClientDo(c, req, resp, Terminate).client, id)
  {
    assert CallOk(c, id);
    assert id in c.pending.Values <==> c.calls[id].num in c.pending;
  }

  lemma CallStep(c: Client, req: Chan, resp: Chan, step: ClientStep, id: nat)
    requires Inv(c) && ClientEnabled(c, req, resp, step) && id in ClientDo(c, req, resp, step).client.calls
    requires step.Register? || id in c.calls
    ensures CallOk(ClientDo(c, req, resp, step).client, id)
  {
    if step.Register? || step.Write? {
      SendingStep(c, req, resp, step, id);
    } else if step.TakeFailed? {
      TakeFailedStep(c, req, resp, step.id, step.text, id);
    } else if step.Cancel? {
      CancelStep(c, req, resp, step.id, id);
    } else if step.RecvTake? {
      RecvTakeStep(c, req, resp, id);
    } else if step.Terminate? {
      TerminateStep(c, req, resp, id);
    } else {
      ReceiverStep(c, req, resp, step, id);
    }
  }

  lemma InvStep(c: Client, req: Chan, resp: Chan, step: ClientStep)
    requires Inv(c) && ClientEnabled(c, req, resp, step)
    ensures Inv(ClientDo(c, req, resp, step).client)
  {
    var d := ClientDo(c, req, resp, step).client;
    NumbersStep(c, req, resp, step);
    RecvStep(c, req, resp, step);
    if !step.Register? {
      IdentityStep(c, req, resp, step);
    }
    forall id | id in d.calls ensures CallOk(d, id) {
      CallStep(c, req, resp, step, id);
    }
  }

  lemma {:induction false} RunInv(steps: seq<Step>, states: seq<State>, methods: set<string>, timed: bool, n: nat)
    requires IsRun(steps, states, methods, timed) && n <= |steps|
    ensures Inv(states[n].client)
  {
    if n > 0 {
      RunInv(steps, states, methods, timed, n - 1);
      assert StepAt(steps, states, n - 1);
      var s, step := states[n - 1], steps[n - 1];
      if step.C? {
        InvStep(s.client, s.req, s.resp, step.c);
      }
    }
  }

  lemma ReachableInv(s: State)
    requires Reachable(s)
    ensures Inv(s.client)
  {
    var steps, states, methods, timed :| IsRun(steps, states, methods, timed) && states[|steps|] == s;
    RunInv(steps, states, methods, timed, |steps|);
  }

  // ------------------------------------------------------------ main results

  /** In every reachable state each number belongs to one call, the table maps a number
      below `seq` to the call that carries it, and removeCall has handed each call to at
      most one taker. */
  lemma PendingTableOwnership(s: State)
    requires Reachable(s)
    ensures forall a, b :: a in s.client.calls && b in s.client.calls && a != b ==>
              s.client.calls[a].num != s.client.calls[b].num
    ensures forall n :: n in s.client.pending ==>
              && s.client.pending[n] in s.client.calls
              && s.client.calls[s.client.pending[n]].num == n < TWO_TO_THE_64
              && (n < s.client.next || s.client.next == 0)
    ensures forall id :: id in s.client.calls ==>
              && s.client.calls[id].taken <= 1
              && (s.client.calls[id].taken == 0 <==> s.client.calls[id].num in s.client.pending)
  {
    ReachableInv(s);
    forall id | id in s.client.calls
      ensures s.client.calls[id].taken <= 1
           && (s.client.calls[id].taken == 0 <==> s.client.calls[id].num in s.client.pending)
    {
      assert CallOk(s.client, id);
    }
  }

  /** Until terminateCalls has run no call is signalled twice, so a Done channel of
      capacity one never blocks: a call about to be signalled has no signal yet. */
  lemma SignalledAtMostOnce(s: State, id: nat)
    requires Reachable(s) && id in s.client.calls && !s.client.recv.Stopped?
    ensures s.client.calls[id].signals <= 1
    ensures s.client.calls[id].num in s.client.pending ==> s.client.calls[id].signals == 0
    ensures s.client.recv.Taken? && s.client.recv.id == id ==> s.client.calls[id].signals == 0
  {
    ReachableInv(s);
    assert CallOk(s.client, id);
  }

  /** A call is signalled twice if and only if it was pending when terminateCalls ran, its
      own write has failed and its Done channel has room; without room `send` waits
      instead, exactly then. Never a third time. */
  lemma SignalledTwiceIff(s: State, id: nat)
    requires Reachable(s) && id in s.client.calls
    ensures s.client.calls[id].signals <= 2
    ensures s.client.calls[id].signals == 2 <==>
              && s.client.calls[id].num in s.client.left && SendFailed(s.client.calls[id])
              && s.client.calls[id].room
    ensures SendFailed(s.client.calls[id]) ==>
              (s.client.calls[id].sending.Blocked? <==>
                 s.client.calls[id].num in s.client.left && !s.client.calls[id].room)
  {
    ReachableInv(s);
    assert CallOk(s.client, id);
  }

  /** The step that calls done() a second time is that of the failed write, on a call that
      terminateCalls left in the table and nobody has cancelled since: it signals the call
      again, or blocks `send`. */
  lemma SecondSignalIff(s: State, step: ClientStep, id: nat)
    requires Reachable(s) && Enabled(s, C(step)) && id in s.client.calls
    requires s.client.calls[id].signals <= 1 && !s.client.calls[id].sending.Blocked?
    ensures id in Do(s, C(step)).client.calls
    ensures var d := Do(s, C(step)).client.calls[id];
            d.signals == 2 || d.sending.Blocked? <==>
              && step.TakeFailed? && step.id == id
              && s.client.calls[id].num in s.client.left && s.client.calls[id].num in s.client.pending
    ensures var d := Do(s, C(step)).client.calls[id];
            (d.signals == 2 ==> d.room) && (d.sending.Blocked? ==> !d.room)
  {
    ReachableInv(s);
    SecondDoneIff(s.client, s.req, s.resp, step, id);
  }

  lemma SecondDoneIff(c: Client, req: Chan, resp: Chan, step: ClientStep, id: nat)
    requires Inv(c) && ClientEnabled(c, req, resp, step) && id in c.calls
    requires c.calls[id].signals <= 1 && !c.calls[id].sending.Blocked?
    ensures id in ClientDo(c, req, resp, step).client.calls
    ensures var d := ClientDo(c, req, resp, step).client.calls[id];
            && (d.signals == 2 || d.sending.Blocked? <==>
                  step.TakeFailed? && step.id == id && c.calls[id].num in c.left && c.calls[id].num in c.pending)
            && (d.signals == 2 ==> d.room) && (d.sending.Blocked? ==> !d.room)
  {
    assert CallOk(c, id);
    InvStep(c, req, resp, step);
    if step.TakeFailed? {
      GiveUpIs(c, step.id, step.text);
    }
    OnlyTakeFailedFails(c, req, resp, step, id);
    assert CallOk(ClientDo(c, req, resp, step).client, id);
  }

  /** `send` waits in done() for this call. */
  predicate BlockedIn(c: Client, id: nat) { id in c.calls && c.calls[id].sending.Blocked? }

  /** And a blocked `send` never returns: whatever happens next, it stays blocked. */
  lemma {:induction false} BlockedForEver(steps: seq<Step>, states: seq<State>, m: nat, id: nat)
    requires |states| == |steps| + 1 && m <= |steps|
    requires forall k :: 0 <= k < |steps| ==> StepAt(steps, states, k)
    requires BlockedIn(states[0].client, id)
    ensures BlockedIn(states[m].client, id)
  {
    if m > 0 {
      BlockedForEver(steps, states, m - 1, id);
      assert StepAt(steps, states, m - 1);
      BlockedStep(states[m - 1], steps[m - 1], id);
    }
  }

  lemma BlockedStep(s: State, step: Step, id: nat)
    requires Enabled(s, step) && BlockedIn(s.client, id)
    ensures BlockedIn(Do(s, step).client, id)
  {
    if step.C? {
      BlockedStays(s.client, s.req, s.resp, step.c, id);
    }
  }

  lemma BlockedStays(c: Client, req: Chan, resp: Chan, step: ClientStep, id: nat)
    requires ClientEnabled(c, req, resp, step) && BlockedIn(c, id)
    ensures BlockedIn(ClientDo(c, req, resp, step).client, id)
  {
  }

  lemma GiveUpFails(c: Client, who: nat, text: string, id: nat)
    requires who in c.calls && id in c.calls
    ensures id in GiveUp(c, who, text).calls
    ensures SendFailed(GiveUp(c, who, text).calls[id]) <==> SendFailed(c.calls[id]) || who == id
  {
  }

  lemma OnlyTakeFailedFails(c: Client, req: Chan, resp: Chan, step: ClientStep, id: nat)
    requires ClientEnabled(c, req, resp, step) && id in c.calls
    ensures id in ClientDo(c, req, resp, step).client.calls
    ensures var d := ClientDo(c, req, resp, step).client;
            SendFailed(d.calls[id]) <==> SendFailed(c.calls[id]) || (step.TakeFailed? && step.id == id)
  {
    if step.TakeFailed? {
      GiveUpFails(c, step.id, step.text, id);
    }
  }

  /** Signalled, with neither an error nor a reply. */
  predicate SilentlyFinished(call: Call) {
    call.signals > 0 && call.error.None? && call.reply.None?
  }

  /** "A nil error means the reply was decoded" fails for exactly the calls that were
      pending when terminateCalls ran with a nil error, until their write fails. */
  lemma SilentlyFinishedIff(s: State, id: nat)
    requires Reachable(s) && id in s.client.calls
    ensures SilentlyFinished(s.client.calls[id]) <==>
              && s.client.recv == Stopped(None) && s.client.calls[id].num in s.client.left
              && !SendFailed(s.client.calls[id])
    ensures !(s.client.calls[id].error.Some? && s.client.calls[id].reply.Some?)
  {
    ReachableInv(s);
    assert CallOk(s.client, id);
  }

  /** What terminateCalls does: it finishes exactly the pending calls, silently if and
      only if the loop ended with a nil error. */
  lemma TerminateFinishes(s: State, id: nat)
    requires Reachable(s) && s.client.recv.Ending? && id in s.client.calls
    ensures id in Do(s, C(Terminate)).client.calls
    ensures SilentlyFinished(Do(s, C(Terminate)).client.calls[id]) <==>
              s.client.calls[id].num in s.client.pending && s.client.recv.err.None?
    ensures Do(s, C(Terminate)).client.calls[id].signals == s.client.calls[id].signals + 1 <==>
              s.client.calls[id].num in s.client.pending
  {
    ReachableInv(s);
    assert CallOk(s.client, id);
    assert id in s.client.pending.Values <==> s.client.calls[id].num in s.client.pending;
  }
}
