/** Neither side of a connection gets stuck: what is not finished can go on. */
module RpcProgress {
  import opened Wrappers
  import opened RpcProtocol
  import T = RpcClientTable
  import L = RpcServerLoop
  import E = RpcEndToEnd

  /** The loop has read the request's header, and nothing of its arguments has arrived yet. */
  predicate AwaitsArguments(s: State, r: nat) {
    && r + 1 == |s.server.reqs| && s.server.serve.GotHeader? && s.server.reqs[r].meth in s.server.methods
    && s.req.pos >= |s.req.log| && !s.req.broken
  }

  /** A step for request r itself, or for the one that holds the sending mutex. */
  predicate WorksFor(v: Server, step: ServerStep, r: nat) {
    match step
    case UnknownMethod(_) => r + 1 == |v.reqs|
    case ReadArgs(_) => r + 1 == |v.reqs|
    case ReadArgsFail(_) => r + 1 == |v.reqs|
    case ServiceReturn(q, _) => q == r
    case TakeResult(q) => q == r
    case Lock(q) => q == r
    case WriteHead(q, _, _) => v.lock == Some(q)
    case WriteBody(q, _, _) => v.lock == Some(q)
    case Unlock(q) => v.lock == Some(q)
    case _ => false
  }

  /** Whoever holds the mutex can write on, or release it. */
  lemma HolderStep(s: State) returns (step: ServerStep)
    requires L.Inv(s.server) && s.server.lock.Some?
    ensures Enabled(s, S(step)) && (step.WriteHead? || step.WriteBody? || step.Unlock?)
    ensures s.server.lock == Some(step.r)
  {
    var r := s.server.lock.value;
    assert L.ReqOk(s.server, r);
    var n := if s.resp.broken then 0 else 1;
    match s.server.reqs[r].answer
    case Locked => step := WriteHead(r, n, true);
    case HeadOut => step := WriteBody(r, n, true);
    case _ => step := Unlock(r);
  }

  /** A request that has not been decided. */
  lemma UndecidedStep(s: State, r: nat, outcome: Outcome) returns (step: ServerStep)
    requires L.Inv(s.server) && r < |s.server.reqs| && s.server.reqs[r].answer.Undecided?
    ensures AwaitsArguments(s, r) || (Enabled(s, S(step)) && WorksFor(s.server, step, r))
  {
    var q := s.server.reqs[r];
    assert L.ReqOk(s.server, r);
    if q.spawned {
      step := if q.service.Called? then TakeResult(r) else ServiceReturn(r, outcome);
    } else if q.meth !in s.server.methods {
      step := UnknownMethod("unknown");
    } else {
      step := if s.req.pos < |s.req.log| then ReadArgs("") else ReadArgsFail("closed");
    }
  }

  /** In every reachable state a request that has not been answered is waiting for its
      arguments, or there is a step for it, or for the holder of the mutex; and on a timed
      server, for one that has been handed to its service, also the timeout. */
  lemma ServerNeverStuck(s: State, r: nat, outcome: Outcome) returns (step: ServerStep)
    requires Reachable(s) && r < |s.server.reqs| && !s.server.reqs[r].answer.Answered?
    ensures AwaitsArguments(s, r) || (Enabled(s, S(step)) && WorksFor(s.server, step, r))
    ensures s.server.timed && s.server.reqs[r].spawned && s.server.reqs[r].answer.Undecided? ==>
              forall text :: text != "" ==> Enabled(s, S(Timeout(r, text)))
  {
    L.ReachableInv(s);
    assert L.ReqOk(s.server, r);
    match s.server.reqs[r].answer
    case Undecided => step := UndecidedStep(s, r, outcome);
    case Ready =>
      if s.server.lock.None? {
        step := Lock(r);
      } else {
        step := HolderStep(s);
      }
    case _ => step := HolderStep(s);
  }

  /** Tokens of the response stream alternate. */
  lemma TokenKinds(v: Server, resp: Chan, k: nat)
    requires L.StreamOk(v, resp) && k < |resp.log|
    ensures resp.log[k].Head? <==> k % 2 == 0
  {
    assert resp.log[k] == L.FrameToken(v.attempts, k);
  }

  /** Where the receive loop stands in the stream. */
  lemma NextKind(c: Client, v: Server, resp: Chan)
    requires L.StreamOk(v, resp) && E.ReceiverAligned(c, resp) && E.MissingOk(c, resp) && resp.pos < |resp.log|
    ensures c.recv.AtLoop? ==> resp.log[resp.pos].Head?
    ensures c.recv.Taken? || c.recv.Missing? ==> HasData(resp)
  {
    TokenKinds(v, resp, resp.pos);
    if c.recv.Missing? {
      var id :| E.Heads(c, resp, id) && E.GivenUp(c, id);
      TokenKinds(v, resp, resp.pos - 1);
    }
  }

  lemma TakenIsCall(s: State)
    requires Reachable(s) && s.client.recv.Taken?
    ensures s.client.recv.id in s.client.calls && s.client.recv.head.Head?
  {
    T.ReachableInv(s);
  }

  lemma StreamOf(s: State)
    requires Reachable(s)
    ensures L.StreamOk(s.server, s.resp)
  {
    L.ReachableInv(s);
  }

  /** The receive loop never takes a header for a body or a body for a header: whatever
      has arrived, the read that comes next fits the token that comes next. */
  lemma ReceiverReads(s: State)
    requires Reachable(s) && s.resp.pos < |s.resp.log|
    ensures s.client.recv.AtLoop? ==> Enabled(s, C(RecvHead))
    ensures s.client.recv.GotHead? ==> Enabled(s, C(RecvTake))
    ensures s.client.recv.Missing? ==> Enabled(s, C(RecvMissing(None)))
    ensures s.client.recv.Taken? ==> Enabled(s, C(RecvError(None))) || Enabled(s, C(RecvReply(None)))
  {
    StreamOf(s);
    E.MissingOf(s);
    E.ReceiverOf(s);
    NextKind(s.client, s.server, s.resp);
    if s.client.recv.Taken? {
      TakenIsCall(s);
    }
  }

  /** The step is a write that failed, to the request stream or to the response stream. */
  predicate FailedWrite(step: Step, request: bool) {
    match step
    case C(Write(_, _, ok)) => request && !ok
    case S(WriteHead(_, _, ok)) => !request && !ok
    case S(WriteBody(_, _, ok)) => !request && !ok
    case _ => false
  }

  /** A failed write is the last that can arrive: it breaks its stream, and a broken stream
      stays broken and never grows. */
  lemma NothingAfterFailedWrite(s: State, step: Step)
    requires Enabled(s, step)
    ensures FailedWrite(step, true) || s.req.broken ==> Do(s, step).req.broken
    ensures FailedWrite(step, false) || s.resp.broken ==> Do(s, step).resp.broken
    ensures s.req.broken ==> Do(s, step).req.log <= s.req.log
    ensures s.resp.broken ==> Do(s, step).resp.log <= s.resp.log
  {
  }
}
