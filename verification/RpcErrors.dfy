/** Over whole runs: where the client's calls come from, and which error a call holds. */
module RpcErrors {
  import opened Wrappers
  import opened RpcProtocol
  import T = RpcClientTable
  import L = RpcServerLoop
  import E = RpcEndToEnd

  // ------------------------------------------------------------ registration

  /** A call keeps its method, arguments and channel. */
  lemma CallKept(s: State, step: Step, id: nat)
    requires Enabled(s, step) && id in s.client.calls
    ensures id in Do(s, step).client.calls
    ensures var q, q' := s.client.calls[id], Do(s, step).client.calls[id];
            q'.num == q.num && q'.meth == q.meth && q'.args == q.args
  {
    if step.C? && !step.c.Register? {
      T.IdentityStep(s.client, s.req, s.resp, step.c);
    }
  }

  /** In every run the call registered by step k keeps the method and arguments it was
      registered with, under the number that was next then. */
  lemma {:induction false} RegisteredAs(steps: seq<Step>, states: seq<State>, methods: set<string>, timed: bool,
                                        k: nat, n: nat)
    requires IsRun(steps, states, methods, timed) && k < n <= |steps|
    requires steps[k].C? && steps[k].c.Register?
    ensures var step := steps[k].c;
            && step.id in states[n].client.calls && states[n].client.calls[step.id].num == states[k].client.next
            && states[n].client.calls[step.id].meth == step.meth
            && states[n].client.calls[step.id].args == step.args
  {
    assert StepAt(steps, states, n - 1);
    if k < n - 1 {
      RegisteredAs(steps, states, methods, timed, k, n - 1);
      CallKept(states[n - 1], steps[n - 1], steps[k].c.id);
    }
  }

  // ------------------------------------------------------------ error texts

  /** The error that a step stores in call id, if it does: that of its failed write, the
      text in its response's header, the failure to read its reply, or the error that
      ended the receive loop while it was pending. */
  function Failure(s: State, step: Step, id: nat): Option<string>
    requires id in s.client.calls
  {
    var c := s.client;
    match step
    case C(TakeFailed(who, text)) =>
      if who == id && c.calls[id].num in c.pending then Some(text) else None
    case C(RecvError(_)) =>
      if c.recv.Taken? && c.recv.id == id && c.recv.head.Head? then Some(c.recv.head.err) else None
    case C(RecvReply(Some(e))) =>
      if c.recv.Taken? && c.recv.id == id then Some("read body error " + e) else None
    case C(Terminate) =>
      if c.recv.Ending? && c.calls[id].num in c.pending then c.recv.err else None
    case _ => None
  }

  lemma ErrorTakeFailed(c: Client, req: Chan, resp: Chan, who: nat, text: string, id: nat)
    requires T.Inv(c) && ClientEnabled(c, req, resp, TakeFailed(who, text)) && id in c.calls
    ensures id in ClientDo(c, req, resp, TakeFailed(who, text)).client.calls
    ensures ClientDo(c, req, resp, TakeFailed(who, text)).client.calls[id].error ==
              if who == id && c.calls[id].num in c.pending then Some(text) else c.calls[id].error
  {
    T.GiveUpIs(c, who, text);
  }

  lemma ErrorTerminate(c: Client, req: Chan, resp: Chan, id: nat)
    requires T.Inv(c) && c.recv.Ending? && id in c.calls
    ensures id in ClientDo(c, req, resp, Terminate).client.calls
    ensures ClientDo(c, req, resp, Terminate).client.calls[id].error ==
              if c.calls[id].num in c.pending then c.recv.err else c.calls[id].error
    ensures c.calls[id].num in c.pending ==> c.calls[id].error.None?
  {
    assert T.CallOk(c, id);
    assert id in c.pending.Values <==> c.calls[id].num in c.pending;
  }

  lemma ErrorOther(c: Client, req: Chan, resp: Chan, step: ClientStep, id: nat)
    requires ClientEnabled(c, req, resp, step) && id in c.calls && !step.TakeFailed? && !step.Terminate?
    ensures id in ClientDo(c, req, resp, step).client.calls
    ensures ClientDo(c, req, resp, step).client.calls[id].error ==
              if step.RecvError? && c.recv.id == id then Some(c.recv.head.err)
              else if step.RecvReply? && step.readErr.Some? && c.recv.id == id then
                Some("read body error " + step.readErr.value)
              else c.calls[id].error
  {
  }

  /** After every step a call holds the error which the step stores, or else the one it
      held before. */
  lemma ErrorStep(s: State, step: Step, id: nat)
    requires T.Inv(s.client) && Enabled(s, step) && id in s.client.calls
    ensures id in Do(s, step).client.calls
    ensures Do(s, step).client.calls[id].error ==
              if Failure(s, step, id).Some? then Failure(s, step, id) else s.client.calls[id].error
  {
    if step.C? && step.c.TakeFailed? {
      ErrorTakeFailed(s.client, s.req, s.resp, step.c.id, step.c.text, id);
    } else if step.C? && step.c.Terminate? {
      ErrorTerminate(s.client, s.req, s.resp, id);
    } else if step.C? {
      ErrorOther(s.client, s.req, s.resp, step.c, id);
    }
  }

  /** A call that a step makes holds no error. */
  lemma NewCallHasNoError(s: State, step: Step, id: nat)
    requires Enabled(s, step) && id !in s.client.calls && id in Do(s, step).client.calls
    ensures Do(s, step).client.calls[id].error.None?
  {
    if step.C? && !step.c.Register? {
      T.IdentityStep(s.client, s.req, s.resp, step.c);
    }
  }

  /** Step k stored the error that call id holds in state n, and no step since stored
      another. */
  ghost predicate Latest(steps: seq<Step>, states: seq<State>, k: nat, n: nat, id: nat)
    requires |states| == |steps| + 1 && k < n <= |steps| && id in states[n].client.calls
  {
    && id in states[k].client.calls && Failure(states[k], steps[k], id) == states[n].client.calls[id].error
    && forall j :: k < j < n ==> id in states[j].client.calls && Failure(states[j], steps[j], id).None?
  }

  /** In every run an error that a call holds is the latest that a step stored in it. */
  lemma {:induction false} ErrorOf(steps: seq<Step>, states: seq<State>, methods: set<string>, timed: bool,
                                   n: nat, id: nat) returns (k: nat)
    requires IsRun(steps, states, methods, timed) && n <= |steps|
    requires id in states[n].client.calls && states[n].client.calls[id].error.Some?
    ensures k < n && Latest(steps, states, k, n, id)
  {
    assert n > 0;
    assert StepAt(steps, states, n - 1);
    if id !in states[n - 1].client.calls {
      NewCallHasNoError(states[n - 1], steps[n - 1], id);
    } else {
      T.RunInv(steps, states, methods, timed, n - 1);
      ErrorStep(states[n - 1], steps[n - 1], id);
      if Failure(states[n - 1], steps[n - 1], id).Some? {
        k := n - 1;
      } else {
        k := ErrorOf(steps, states, methods, timed, n - 1, id);
      }
    }
  }

  /** Response i of the server is for call id's own request and carries `text`. */
  predicate Answers(s: State, i: nat, id: nat, text: string) {
    && i < |s.server.attempts| && id in s.client.calls && s.server.attempts[i].req < |s.server.reqs|
    && s.server.attempts[i].err == text && s.server.attempts[i].num == s.client.calls[id].num
    && s.server.attempts[i].meth == s.client.calls[id].meth && E.InStep(s.server, s.server.attempts[i].req)
  }

  /** The header in the receive loop's hands is that of the response to the call's own
      request. */
  lemma TakenIsAnswer(s: State) returns (i: nat)
    requires E.Inv(s) && s.client.recv.Taken?
    ensures s.client.recv.head.Head? && Answers(s, i, s.client.recv.id, s.client.recv.head.err)
  {
    i := E.FrameOfHeader(s.client, s.server, s.resp);
    E.DeliveryIsInStep(s.server, i);
    var r := s.server.attempts[i].req;
    assert L.AttemptOk(s.server, s.server.attempts[i]);
    E.InStepIsIssued(s, r);
  }

  /** Errors end to end: in every run an error that a call holds was stored by the latest
      step that stored one, and one taken from a response is the error with which the
      server answered that call's own request. */
  lemma ErrorEndToEnd(steps: seq<Step>, states: seq<State>, methods: set<string>, timed: bool, n: nat, id: nat)
    returns (k: nat, i: nat)
    requires IsRun(steps, states, methods, timed) && n <= |steps|
    requires id in states[n].client.calls && states[n].client.calls[id].error.Some?
    ensures k < n && Latest(steps, states, k, n, id)
    ensures steps[k].C? && steps[k].c.RecvError? ==>
              Answers(states[k], i, id, states[n].client.calls[id].error.value)
  {
    i := 0;
    k := ErrorOf(steps, states, methods, timed, n, id);
    if steps[k].C? && steps[k].c.RecvError? {
      E.RunInv(steps, states, methods, timed, k);
      i := TakenIsAnswer(states[k]);
    }
  }
}
