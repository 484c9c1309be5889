/** Client and server together: a call completed by the success branch of the receive
    loop holds what the service computed for that call's own method and arguments. */
module RpcEndToEnd {
  import opened Wrappers
  import opened RpcProtocol
  import T = RpcClientTable
  import L = RpcServerLoop
  import D = RpcDecisions

  // ---------------------------------------------------------- request stream

  /** Token k of the request stream is half of the frame of an issued call. */
  predicate RequestToken(c: Client, log: seq<Token>, k: nat)
    requires k < |log|
  {
    if k % 2 == 0 then
      && log[k].Head? && log[k].err == "" && log[k].num in c.issued && c.issued[log[k].num] in c.calls
      && c.calls[c.issued[log[k].num]].meth == log[k].meth
      && !c.calls[c.issued[log[k].num]].sending.Registered?
    else
      && log[k - 1].Head? && log[k - 1].num in c.issued && c.issued[log[k - 1].num] in c.calls
      && log[k] == Data(Payload(c.calls[c.issued[log[k - 1].num]].args))
  }

  ghost predicate RequestsOk(c: Client, req: Chan) {
    && req.pos <= |req.log|
    && (!req.broken ==> |req.log| % 2 == 0)
    && (forall k :: 0 <= k < |req.log| ==> RequestToken(c, req.log, k))
    && (forall k, l :: 0 <= k < l < |req.log| && req.log[k].Head? && req.log[l].Head? ==>
          req.log[k].num != req.log[l].num)
  }

  /** Steps other than a write keep the frames' calls. */
  lemma KeepsTokens(c: Client, d: Client, log: seq<Token>, k: nat)
    requires k < |log| && RequestToken(c, log, k)
    requires forall n :: n in c.issued ==> n in d.issued && d.issued[n] == c.issued[n]
    requires forall id :: id in c.calls ==>
               && id in d.calls && d.calls[id].meth == c.calls[id].meth
               && d.calls[id].args == c.calls[id].args
               && (!c.calls[id].sending.Registered? ==> !d.calls[id].sending.Registered?)
    ensures RequestToken(d, log, k)
  {
  }

  /** A call that has been written stays written. */
  lemma WrittenStays(c: Client, req: Chan, resp: Chan, step: ClientStep, id: nat)
    requires ClientEnabled(c, req, resp, step) && id in c.calls && !c.calls[id].sending.Registered?
    ensures id in ClientDo(c, req, resp, step).client.calls
    ensures !ClientDo(c, req, resp, step).client.calls[id].sending.Registered?
  {
  }

  lemma SendingStep(c: Client, req: Chan, resp: Chan, step: ClientStep, id: nat)
    requires T.Inv(c) && ClientEnabled(c, req, resp, step) && id in c.calls
    ensures var d := ClientDo(c, req, resp, step).client;
            && id in d.calls && d.calls[id].meth == c.calls[id].meth && d.calls[id].args == c.calls[id].args
            && (!c.calls[id].sending.Registered? ==> !d.calls[id].sending.Registered?)
  {
    if !step.Register? {
      T.IdentityStep(c, req, resp, step);
      if !c.calls[id].sending.Registered? {
        WrittenStays(c, req, resp, step, id);
      }
    }
  }

  lemma IssuedStep(c: Client, req: Chan, resp: Chan, step: ClientStep)
    requires T.Inv(c) && ClientEnabled(c, req, resp, step)
    ensures forall n :: n in c.issued ==>
              n in ClientDo(c, req, resp, step).client.issued
              && ClientDo(c, req, resp, step).client.issued[n] == c.issued[n]
  {
    if !step.Register? {
      T.IdentityStep(c, req, resp, step);
    }
  }

  lemma TokensAfter(c: Client, req: Chan, resp: Chan, step: ClientStep, log: seq<Token>)
    requires T.Inv(c) && ClientEnabled(c, req, resp, step)
    requires forall k :: 0 <= k < |log| ==> RequestToken(c, log, k)
    ensures forall k :: 0 <= k < |log| ==> RequestToken(ClientDo(c, req, resp, step).client, log, k)
  {
    var d := ClientDo(c, req, resp, step).client;
    IssuedStep(c, req, resp, step);
    forall id | id in c.calls
      ensures id in d.calls && d.calls[id].meth == c.calls[id].meth && d.calls[id].args == c.calls[id].args
           && (!c.calls[id].sending.Registered? ==> !d.calls[id].sending.Registered?)
    {
      SendingStep(c, req, resp, step, id);
    }
    forall k | 0 <= k < |log| ensures RequestToken(d, log, k) {
      KeepsTokens(c, d, log, k);
    }
  }

  /** The number of a call that has not been written is not in the stream. */
  lemma UnwrittenNumber(c: Client, req: Chan, id: nat)
    requires T.Inv(c) && RequestsOk(c, req) && id in c.calls && c.calls[id].sending.Registered?
    ensures forall k :: 0 <= k < |req.log| && req.log[k].Head? ==> req.log[k].num != c.calls[id].num
  {
    forall k | 0 <= k < |req.log| && req.log[k].Head? ensures req.log[k].num != c.calls[id].num {
      assert RequestToken(c, req.log, k);
    }
  }

  /** Appending what was delivered of the frame of a call. */
  lemma AppendFrame(c: Client, req: Chan, id: nat, delivered: nat, ok: bool)
    requires T.Inv(c) && id in c.calls && !c.calls[id].sending.Registered?
    requires RequestsOk(c, req) && CanPush(req, RequestFrame(c.calls[id]), delivered)
    requires forall k :: 0 <= k < |req.log| && req.log[k].Head? ==> req.log[k].num != c.calls[id].num
    ensures RequestsOk(c, Push(req, RequestFrame(c.calls[id]), delivered, ok))
  {
    var frame, n := RequestFrame(c.calls[id]), |req.log|;
    var log := req.log + frame[..delivered];
    if delivered > 0 {
      assert log[n] == frame[0];
    }
    if delivered > 1 {
      assert log[n + 1] == frame[1];
    }
    forall k | 0 <= k < |log| ensures RequestToken(c, log, k) {
      if k < n {
        assert RequestToken(c, req.log, k);
      }
    }
  }

  lemma WriteStep(c: Client, req: Chan, resp: Chan, id: nat, delivered: nat, ok: bool)
    requires T.Inv(c) && RequestsOk(c, req) && ClientEnabled(c, req, resp, Write(id, delivered, ok))
    ensures var d := ClientDo(c, req, resp, Write(id, delivered, ok)); RequestsOk(d.client, d.req)
  {
    var step := Write(id, delivered, ok);
    var d := ClientDo(c, req, resp, step).client;
    T.InvStep(c, req, resp, step);
    UnwrittenNumber(c, req, id);
    TokensAfter(c, req, resp, step, req.log);
    assert RequestFrame(d.calls[id]) == RequestFrame(c.calls[id]);
    AppendFrame(d, req, id, delivered, ok);
  }

  lemma RequestsStep(s: State, step: Step)
    requires T.Inv(s.client) && RequestsOk(s.client, s.req) && Enabled(s, step)
    ensures RequestsOk(Do(s, step).client, Do(s, step).req)
  {
    match step
    case C(c) =>
      if c.Write? {
        WriteStep(s.client, s.req, s.resp, c.id, c.delivered, c.ok);
      } else {
        TokensAfter(s.client, s.req, s.resp, c, s.req.log);
      }
    case S(v) =>
    case CutReq(at) =>
      forall k | 0 <= k < at ensures RequestToken(s.client, s.req.log[..at], k) {
        assert RequestToken(s.client, s.req.log, k);
      }
    case CutResp(_) =>
  }

  // ---------------------------------------- the server reads frame by frame

  /** No request before r names an unknown method. The body of such a request is left in
      the stream, so what the server reads after it is out of step with the frames. */
  predicate InStep(v: Server, r: nat)
    requires r <= |v.reqs|
  {
    forall q :: 0 <= q < r ==> v.reqs[q].meth in v.methods
  }

  /** Request r was decoded from frame r of the request stream. */
  predicate FromFrame(q: Req, log: seq<Token>, r: nat, pos: nat) {
    && 2 * r < pos <= |log| && log[2 * r].Head?
    && q.num == log[2 * r].num && q.meth == log[2 * r].meth
    && (q.args.Some? ==> 2 * r + 1 < pos && log[2 * r + 1] == Data(Payload(q.args.value)))
    && (q.answer.Undecided? || q.body.Payload? ==> q.err == "")
  }

  /** In step, request r comes from frame r. */
  ghost predicate Aligned(v: Server, req: Chan) {
    && (InStep(v, |v.reqs|) ==>
          if v.serve.GotHeader? then req.pos == 2 * |v.reqs| - 1
          else req.pos == 2 * |v.reqs|
               || (req.pos == 2 * |v.reqs| - 1 && req.pos == |req.log| && req.broken))
    && (forall r :: 0 <= r < |v.reqs| && InStep(v, r) ==> FromFrame(v.reqs[r], req.log, r, req.pos))
  }

  /** A handler's step changes no request's origin. */
  lemma FromFrameKept(v: Server, req: Chan, resp: Chan, step: ServerStep, r: nat)
    requires L.Inv(v) && ServerEnabled(v, req, resp, step) && !L.LoopStep(step) && !L.CurrentStep(step)
    requires r < |v.reqs| && FromFrame(v.reqs[r], req.log, r, req.pos)
    ensures r < |ServerDo(v, req, resp, step).server.reqs|
    ensures FromFrame(ServerDo(v, req, resp, step).server.reqs[r], req.log, r, req.pos)
  {
    if r != step.r {
      L.Untouched(v, req, resp, step, r);
    }
  }

  lemma AlignedHandlerStep(v: Server, req: Chan, resp: Chan, step: ServerStep)
    requires L.Inv(v) && Aligned(v, req) && ServerEnabled(v, req, resp, step)
    requires !L.LoopStep(step) && !L.CurrentStep(step)
    ensures Aligned(ServerDo(v, req, resp, step).server, ServerDo(v, req, resp, step).req)
  {
    var d := ServerDo(v, req, resp, step);
    assert d.req == req && |d.server.reqs| == |v.reqs| && d.server.serve == v.serve;
    SameSteps(v, req, resp, step);
    forall r | 0 <= r < |v.reqs| && InStep(d.server, r)
      ensures FromFrame(d.server.reqs[r], req.log, r, req.pos)
    {
      FromFrameKept(v, req, resp, step, r);
    }
  }

  /** Headers and methods do not change, so what was in step stays in step. */
  lemma SameSteps(v: Server, req: Chan, resp: Chan, step: ServerStep)
    requires L.Inv(v) && ServerEnabled(v, req, resp, step)
    ensures |v.reqs| <= |ServerDo(v, req, resp, step).server.reqs|
    ensures forall r :: 0 <= r <= |v.reqs| ==>
              (InStep(ServerDo(v, req, resp, step).server, r) <==> InStep(v, r))
  {
    var d := ServerDo(v, req, resp, step).server;
    L.ReqsGrow(v, req, resp, step);
    forall q | 0 <= q < |v.reqs| ensures d.reqs[q].meth == v.reqs[q].meth {
      L.Stable(v, req, resp, step, q);
    }
  }

  lemma AlignedLoopStep(c: Client, v: Server, req: Chan, resp: Chan, step: ServerStep)
    requires L.Inv(v) && RequestsOk(c, req) && Aligned(v, req) && ServerEnabled(v, req, resp, step)
    requires L.LoopStep(step) && !step.ReadHead?
    ensures Aligned(ServerDo(v, req, resp, step).server, ServerDo(v, req, resp, step).req)
  {
    var d := ServerDo(v, req, resp, step);
    assert d.req == req && d.server.reqs == v.reqs && d.server.methods == v.methods;
    assert InStep(d.server, |v.reqs|) <==> InStep(v, |v.reqs|);
    forall r | 0 <= r < |v.reqs| && InStep(d.server, r)
      ensures FromFrame(v.reqs[r], req.log, r, req.pos)
    {
      assert InStep(v, r);
    }
  }

  lemma AlignedHeadStep(c: Client, v: Server, req: Chan, resp: Chan, garbled: Token)
    requires L.Inv(v) && RequestsOk(c, req) && Aligned(v, req)
    requires ServerEnabled(v, req, resp, ReadHead(garbled))
    ensures var d := ServerDo(v, req, resp, ReadHead(garbled)); Aligned(d.server, d.req)
  {
    var d := ServerDo(v, req, resp, ReadHead(garbled));
    SameSteps(v, req, resp, ReadHead(garbled));
    assert RequestToken(c, req.log, req.pos);
    forall r | 0 <= r < |d.server.reqs| && InStep(d.server, r)
      ensures FromFrame(d.server.reqs[r], d.req.log, r, d.req.pos)
    {
      assert InStep(v, r);
      if r < |v.reqs| {
        assert FromFrame(v.reqs[r], req.log, r, req.pos);
      }
    }
  }

  /** A registered method's body is always consumed with its header. */
  lemma AlignedCurrentStep(c: Client, v: Server, req: Chan, resp: Chan, step: ServerStep)
    requires L.Inv(v) && RequestsOk(c, req) && Aligned(v, req) && ServerEnabled(v, req, resp, step)
    requires L.CurrentStep(step)
    ensures Aligned(ServerDo(v, req, resp, step).server, ServerDo(v, req, resp, step).req)
  {
    var d, last := ServerDo(v, req, resp, step), |v.reqs| - 1;
    SameSteps(v, req, resp, step);
    if InStep(v, last) {
      CurrentFrame(c, v, req, resp, step);
    }
    assert InStep(v, |v.reqs|) ==> InStep(v, last);
    forall r | 0 <= r < |d.server.reqs| && InStep(d.server, r)
      ensures FromFrame(d.server.reqs[r], d.req.log, r, d.req.pos)
    {
      assert InStep(v, r);
      assert FromFrame(v.reqs[r], req.log, r, req.pos);
    }
  }

  /** The frame of the request just read, when it is in step. */
  lemma CurrentFrame(c: Client, v: Server, req: Chan, resp: Chan, step: ServerStep)
    requires L.Inv(v) && RequestsOk(c, req) && Aligned(v, req) && ServerEnabled(v, req, resp, step)
    requires L.CurrentStep(step) && InStep(v, |v.reqs| - 1)
    ensures var d, last := ServerDo(v, req, resp, step), |v.reqs| - 1;
            && |d.server.reqs| == |v.reqs| && FromFrame(d.server.reqs[last], d.req.log, last, d.req.pos)
            && (v.reqs[last].meth in v.methods ==>
                  d.req.pos == 2 * |v.reqs| || (d.req.pos == 2 * last + 1 == |d.req.log| && d.req.broken))
  {
    var last := |v.reqs| - 1;
    assert FromFrame(v.reqs[last], req.log, last, req.pos) && L.ReqOk(v, last);
    assert RequestToken(c, req.log, 2 * last);
    if v.reqs[last].meth in v.methods {
      assert InStep(v, |v.reqs|);
      if req.pos < |req.log| {
        assert RequestToken(c, req.log, req.pos);
      }
    }
  }

  lemma AlignedServerStep(c: Client, v: Server, req: Chan, resp: Chan, step: ServerStep)
    requires L.Inv(v) && RequestsOk(c, req) && Aligned(v, req) && ServerEnabled(v, req, resp, step)
    ensures Aligned(ServerDo(v, req, resp, step).server, ServerDo(v, req, resp, step).req)
  {
    if step.ReadHead? {
      AlignedHeadStep(c, v, req, resp, step.garbled);
    } else if L.LoopStep(step) {
      AlignedLoopStep(c, v, req, resp, step);
    } else if L.CurrentStep(step) {
      AlignedCurrentStep(c, v, req, resp, step);
    } else {
      AlignedHandlerStep(v, req, resp, step);
    }
  }

  /** Writes and cuts happen beyond what was read. */
  lemma AlignedExtend(v: Server, req: Chan, req': Chan)
    requires Aligned(v, req) && req.pos <= |req.log| && req'.pos == req.pos && req.pos <= |req'.log|
    requires forall k :: 0 <= k < req.pos ==> req'.log[k] == req.log[k]
    requires req.broken ==> req'.broken && |req'.log| <= |req.log|
    ensures Aligned(v, req')
  {
    forall r | 0 <= r < |v.reqs| && InStep(v, r) ensures FromFrame(v.reqs[r], req'.log, r, req'.pos) {
      assert FromFrame(v.reqs[r], req.log, r, req.pos);
    }
  }

  lemma AlignedStep(s: State, step: Step)
    requires L.Inv(s.server) && RequestsOk(s.client, s.req) && Aligned(s.server, s.req)
    requires Enabled(s, step)
    ensures Aligned(Do(s, step).server, Do(s, step).req)
  {
    match step
    case C(c) => AlignedExtend(s.server, s.req, Do(s, step).req);
    case S(v) => AlignedServerStep(s.client, s.server, s.req, s.resp, v);
    case CutReq(at) => AlignedExtend(s.server, s.req, Do(s, step).req);
    case CutResp(_) =>
  }

  // -------------------------------------- the client reads frame by frame

  /** No header among the first n tokens carries an error. */
  predicate NoErrors(log: seq<Token>, n: nat)
    requires n <= |log|
  {
    forall k :: 0 <= k < n && log[k].Head? ==> log[k].err == ""
  }

  /** Between header and body the receive loop stands inside a frame, and it has not gone
      past an error. */
  predicate ReceiverAligned(c: Client, resp: Chan) {
    && resp.pos <= |resp.log|
    && (c.recv.AtLoop? ==> resp.pos % 2 == 0 && NoErrors(resp.log, resp.pos))
    && (c.recv.GotHead? || c.recv.Taken? ==>
          && resp.pos % 2 == 1 && c.recv.head == resp.log[resp.pos - 1] && c.recv.head.Head?
          && NoErrors(resp.log, resp.pos - 1))
  }

  /** A stored reply is the body of one of the `read` success frames read so far, with the
      call's number, and no error was sent before it. */
  ghost predicate Delivered(attempts: seq<Attempt>, read: nat, num: nat, body: Body) {
    exists i :: 0 <= i < |attempts| && i < read && IsDelivery(attempts, i, num, body)
  }

  predicate IsDelivery(attempts: seq<Attempt>, i: nat, num: nat, body: Body)
    requires i < |attempts|
  {
    && attempts[i].num == num && attempts[i].err == "" && attempts[i].body == body
    && forall j :: 0 <= j < i ==> attempts[j].err == ""
  }

  ghost predicate RepliesOk(c: Client, attempts: seq<Attempt>, read: nat) {
    forall id :: id in c.calls && c.calls[id].reply.Some? ==>
      Delivered(attempts, read, c.calls[id].num, c.calls[id].reply.value)
  }

  /** The server and the network never touch what the client has read. */
  lemma ReadPartStays(s: State, step: Step)
    requires L.StreamOk(s.server, s.resp) && Enabled(s, step) && !step.C?
    ensures var d := Do(s, step);
            && d.client == s.client && d.resp.pos == s.resp.pos && d.resp.pos <= |d.resp.log|
            && forall k :: 0 <= k < s.resp.pos ==> d.resp.log[k] == s.resp.log[k]
  {
  }

  /** A read part that stays keeps the receiver aligned. */
  lemma ReceiverKept(c: Client, resp: Chan, resp': Chan)
    requires ReceiverAligned(c, resp) && resp'.pos == resp.pos <= |resp'.log|
    requires forall k :: 0 <= k < resp.pos ==> resp'.log[k] == resp.log[k]
    ensures ReceiverAligned(c, resp')
  {
  }

  lemma ReceiverStep(s: State, step: Step)
    requires L.StreamOk(s.server, s.resp) && ReceiverAligned(s.client, s.resp) && Enabled(s, step)
    ensures ReceiverAligned(Do(s, step).client, Do(s, step).resp)
  {
    if step.C? {
      ReceiverClientStep(s.client, s.req, s.resp, step.c);
    } else {
      ReadPartStays(s, step);
      ReceiverKept(s.client, s.resp, Do(s, step).resp);
    }
  }

  lemma ReceiverClientStep(c: Client, req: Chan, resp: Chan, step: ClientStep)
    requires ReceiverAligned(c, resp) && ClientEnabled(c, req, resp, step)
    ensures ReceiverAligned(ClientDo(c, req, resp, step).client, ClientDo(c, req, resp, step).resp)
  {
  }

  lemma NoErrorAttempts(v: Server, resp: Chan, j: nat)
    requires L.StreamOk(v, resp) && 2 * j <= |resp.log| && NoErrors(resp.log, 2 * j)
    ensures j <= |v.attempts| && forall k :: 0 <= k < j ==> v.attempts[k].err == ""
  {
    if j > 0 {
      assert resp.log[2 * j - 1] == L.FrameToken(v.attempts, 2 * j - 1);
    }
    forall k | 0 <= k < j ensures v.attempts[k].err == "" {
      assert resp.log[2 * k] == L.FrameToken(v.attempts, 2 * k);
    }
  }

  /** The frame that the success branch reads. */
  lemma ReplyFrame(c: Client, v: Server, resp: Chan)
    requires L.StreamOk(v, resp) && ReceiverAligned(c, resp) && HasData(resp)
    requires c.recv.Taken? && c.recv.head.Head? && c.recv.head.err == ""
    ensures Delivered(v.attempts, (resp.pos + 1) / 2, c.recv.head.num, resp.log[resp.pos].body)
  {
    var p, attempts := resp.pos, v.attempts;
    var i := p / 2;
    assert resp.log[p - 1] == L.FrameToken(attempts, p - 1);
    assert resp.log[p] == L.FrameToken(attempts, p);
    assert (p - 1) / 2 == i;
    NoErrorAttempts(v, resp, i);
    assert IsDelivery(attempts, i, c.recv.head.num, resp.log[p].body);
  }

  lemma ReplyStored(s: State)
    requires T.Inv(s.client) && L.StreamOk(s.server, s.resp) && ReceiverAligned(s.client, s.resp)
    requires RepliesOk(s.client, s.server.attempts, s.resp.pos / 2)
    requires ClientEnabled(s.client, s.req, s.resp, RecvReply(None))
    ensures RepliesOk(Do(s, C(RecvReply(None))).client, s.server.attempts, (s.resp.pos + 1) / 2)
  {
    ReplyFrame(s.client, s.server, s.resp);
    RepliesGrow(s.client, s.server.attempts, s.resp.pos / 2, s.server.attempts, (s.resp.pos + 1) / 2);
  }

  /** Every other client step leaves a stored reply alone. */
  lemma ReplyKept(c: Client, req: Chan, resp: Chan, step: ClientStep, id: nat)
    requires T.Inv(c) && ClientEnabled(c, req, resp, step) && step != RecvReply(None)
    requires id in ClientDo(c, req, resp, step).client.calls
    ensures var call := ClientDo(c, req, resp, step).client.calls[id];
            call.reply.Some? ==> id in c.calls && c.calls[id].num == call.num && c.calls[id].reply == call.reply
  {
    if !step.Register? {
      T.IdentityStep(c, req, resp, step);
      ReplySame(c, req, resp, step, id);
    }
  }

  lemma ReplySame(c: Client, req: Chan, resp: Chan, step: ClientStep, id: nat)
    requires ClientEnabled(c, req, resp, step) && step != RecvReply(None) && !step.Register? && id in c.calls
    ensures id in ClientDo(c, req, resp, step).client.calls
    ensures ClientDo(c, req, resp, step).client.calls[id].reply == c.calls[id].reply
  {
  }

  lemma RepliesGrow(c: Client, attempts: seq<Attempt>, read: nat, after: seq<Attempt>, read': nat)
    requires RepliesOk(c, attempts, read) && attempts <= after && read <= read'
    ensures RepliesOk(c, after, read')
  {
    forall id | id in c.calls && c.calls[id].reply.Some?
      ensures Delivered(after, read', c.calls[id].num, c.calls[id].reply.value)
    {
      var i :| 0 <= i < |attempts| && i < read && IsDelivery(attempts, i, c.calls[id].num, c.calls[id].reply.value);
      assert IsDelivery(after, i, c.calls[id].num, c.calls[id].reply.value);
    }
  }

  lemma RepliesKept(s: State, step: ClientStep)
    requires T.Inv(s.client) && RepliesOk(s.client, s.server.attempts, s.resp.pos / 2)
    requires Enabled(s, C(step)) && step != RecvReply(None)
    ensures RepliesOk(Do(s, C(step)).client, s.server.attempts, s.resp.pos / 2)
  {
    var d := Do(s, C(step)).client;
    forall id | id in d.calls && d.calls[id].reply.Some?
      ensures Delivered(s.server.attempts, s.resp.pos / 2, d.calls[id].num, d.calls[id].reply.value)
    {
      ReplyKept(s.client, s.req, s.resp, step, id);
    }
  }

  lemma AttemptsGrow(s: State, step: Step)
    requires Enabled(s, step)
    ensures s.server.attempts <= Do(s, step).server.attempts && s.resp.pos <= Do(s, step).resp.pos
    ensures !step.C? ==> Do(s, step).client == s.client
  {
  }

  lemma RepliesStep(s: State, step: Step)
    requires T.Inv(s.client) && L.StreamOk(s.server, s.resp) && ReceiverAligned(s.client, s.resp)
    requires RepliesOk(s.client, s.server.attempts, s.resp.pos / 2) && Enabled(s, step)
    ensures RepliesOk(Do(s, step).client, Do(s, step).server.attempts, Do(s, step).resp.pos / 2)
  {
    var d := Do(s, step);
    AttemptsGrow(s, step);
    if step == C(RecvReply(None)) {
      ReplyStored(s);
    } else if step.C? {
      RepliesKept(s, step.c);
      RepliesGrow(d.client, s.server.attempts, s.resp.pos / 2, d.server.attempts, d.resp.pos / 2);
    } else {
      RepliesGrow(s.client, s.server.attempts, s.resp.pos / 2, d.server.attempts, d.resp.pos / 2);
    }
  }

  // ------------------------------------------------------------- whole runs

  ghost predicate Inv(s: State) {
    && T.Inv(s.client) && L.Inv(s.server) && L.StreamOk(s.server, s.resp)
    && RequestsOk(s.client, s.req) && Aligned(s.server, s.req)
    && ReceiverAligned(s.client, s.resp) && RepliesOk(s.client, s.server.attempts, s.resp.pos / 2)
  }

  lemma InvStep(s: State, step: Step)
    requires Inv(s) && Enabled(s, step)
    ensures Inv(Do(s, step))
  {
    if step.C? {
      T.InvStep(s.client, s.req, s.resp, step.c);
    }
    assert L.SideInv(s);
    L.SideStep(s, step);
    RequestsStep(s, step);
    AlignedStep(s, step);
    ReceiverStep(s, step);
    RepliesStep(s, step);
  }

  lemma InitInv(methods: set<string>, timed: bool)
    ensures Inv(Init(methods, timed))
  {
  }

  lemma InvAt(steps: seq<Step>, states: seq<State>, k: nat)
    requires |states| == |steps| + 1 && k < |steps| && StepAt(steps, states, k) && Inv(states[k])
    ensures Inv(states[k + 1])
  {
    InvStep(states[k], steps[k]);
  }

  lemma {:induction false} RunInv(steps: seq<Step>, states: seq<State>, methods: set<string>, timed: bool, n: nat)
    requires IsRun(steps, states, methods, timed) && n <= |steps|
    ensures Inv(states[n])
  {
    if n > 0 {
      RunInv(steps, states, methods, timed, n - 1);
      InvAt(steps, states, n - 1);
    } else {
      InitInv(methods, timed);
    }
  }

  /** Request r of the server is the request of call id. */
  predicate SameRequest(q: Req, call: Call) {
    q.num == call.num && q.meth == call.meth && q.args == Some(call.args)
  }

  /** In step, each number reaches the server as at most one request. */
  lemma OneRequestPerNumber(s: State, r: nat, t: nat)
    requires Inv(s) && r < |s.server.reqs| && t < |s.server.reqs|
    requires InStep(s.server, r) && InStep(s.server, t) && s.server.reqs[r].num == s.server.reqs[t].num
    ensures r == t
  {
    assert FromFrame(s.server.reqs[r], s.req.log, r, s.req.pos);
    assert FromFrame(s.server.reqs[t], s.req.log, t, s.req.pos);
  }

  /** In step, a request whose arguments were read is the request of the call with its
      number. */
  lemma RequestOfCall(s: State, r: nat, id: nat)
    requires Inv(s) && r < |s.server.reqs| && InStep(s.server, r) && id in s.client.calls
    requires s.server.reqs[r].num == s.client.calls[id].num && s.server.reqs[r].args.Some?
    ensures SameRequest(s.server.reqs[r], s.client.calls[id])
  {
    assert FromFrame(s.server.reqs[r], s.req.log, r, s.req.pos);
    assert RequestToken(s.client, s.req.log, 2 * r);
    assert RequestToken(s.client, s.req.log, 2 * r + 1);
  }

  /** With registered methods only, every request is in step. */
  lemma {:induction false} RegisteredIsInStep(s: State, r: nat)
    requires Inv(s) && r <= |s.server.reqs|
    requires forall id :: id in s.client.calls ==> s.client.calls[id].meth in s.server.methods
    ensures InStep(s.server, r)
  {
    if r > 0 {
      RegisteredIsInStep(s, r - 1);
      InStepIsIssued(s, r - 1);
    }
  }

  /** A request in step has the number and method of one of the client's calls. */
  lemma InStepIsIssued(s: State, r: nat)
    requires RequestsOk(s.client, s.req) && Aligned(s.server, s.req)
    requires r < |s.server.reqs| && InStep(s.server, r)
    ensures var q, c := s.server.reqs[r], s.client;
            q.num in c.issued && c.issued[q.num] in c.calls && c.calls[c.issued[q.num]].meth == q.meth
  {
    assert FromFrame(s.server.reqs[r], s.req.log, r, s.req.pos);
    assert RequestToken(s.client, s.req.log, 2 * r);
  }

  /** The service return that a success body stands for: the reply itself, or, when
      the method returned an error with an empty text, the placeholder. */
  predicate Stands(body: Body, outcome: Outcome) {
    match outcome
    case Ok(reply) => body == Payload(reply)
    case Err(text) => text == "" && body == Invalid
  }

  lemma InvOf(s: State)
    requires Reachable(s)
    ensures Inv(s)
  {
    var steps, states, methods, timed :| IsRun(steps, states, methods, timed) && states[|steps|] == s;
    RunInv(steps, states, methods, timed, |steps|);
  }

  lemma ReceiverOf(s: State)
    requires Reachable(s)
    ensures ReceiverAligned(s.client, s.resp)
  {
    InvOf(s);
  }

  /** A response without an error answers a request for a registered method. */
  lemma SuccessIsRegistered(v: Server, j: nat)
    requires L.Inv(v) && j < |v.attempts| && v.attempts[j].err == ""
    ensures v.attempts[j].req < |v.reqs| && v.reqs[v.attempts[j].req].meth in v.methods
  {
    assert L.AttemptOk(v, v.attempts[j]);
    assert L.ReqOk(v, v.attempts[j].req);
  }

  /** A response that no error precedes answers a request that is in step: an unknown
      method before it would have been answered first, with an error. */
  lemma DeliveryIsInStep(v: Server, i: nat)
    requires L.Inv(v) && i < |v.attempts|
    requires forall j :: 0 <= j < i ==> v.attempts[j].err == ""
    ensures v.attempts[i].req < |v.reqs| && InStep(v, v.attempts[i].req)
  {
    assert L.AttemptOk(v, v.attempts[i]) && L.UnknownFirst(v, i);
    forall j | 0 <= j < i
      ensures v.attempts[j].req < |v.reqs| && v.reqs[v.attempts[j].req].meth in v.methods
    {
      SuccessIsRegistered(v, j);
    }
  }

  /** The frame that a stored reply was read from. */
  lemma DeliveryOf(s: State, id: nat) returns (i: nat)
    requires Inv(s) && id in s.client.calls && s.client.calls[id].reply.Some?
    ensures i < |s.server.attempts| && i < s.resp.pos / 2
    ensures IsDelivery(s.server.attempts, i, s.client.calls[id].num, s.client.calls[id].reply.value)
  {
    var call := s.client.calls[id];
    assert Delivered(s.server.attempts, s.resp.pos / 2, call.num, call.reply.value);
    i :| 0 <= i < |s.server.attempts| && i < s.resp.pos / 2
         && IsDelivery(s.server.attempts, i, call.num, call.reply.value);
  }

  /** The request behind a stored reply. */
  lemma Behind(s: State, id: nat) returns (r: nat)
    requires Inv(s) && id in s.client.calls && s.client.calls[id].reply.Some?
    ensures r < |s.server.reqs| && InStep(s.server, r) && SameRequest(s.server.reqs[r], s.client.calls[id])
    ensures s.server.reqs[r].service.Called?
    ensures Stands(s.client.calls[id].reply.value, s.server.reqs[r].service.outcome)
  {
    var i := DeliveryOf(s, id);
    assert L.AttemptOk(s.server, s.server.attempts[i]);
    r := s.server.attempts[i].req;
    DeliveryIsInStep(s.server, i);
    assert L.ReqOk(s.server, r);
    RequestOfCall(s, r, id);
  }

  /** End to end: in every reachable state a call completed by the success branch has
      reached the server as a request with its own method and arguments, and holds what
      the service returned for that request. It is the only request with its number
      among those that are in step, which all are if all methods are registered. */
  lemma EndToEnd(s: State, id: nat) returns (r: nat)
    requires Reachable(s) && id in s.client.calls && s.client.calls[id].reply.Some?
    ensures r < |s.server.reqs| && InStep(s.server, r) && SameRequest(s.server.reqs[r], s.client.calls[id])
    ensures s.server.reqs[r].service.Called?
    ensures Stands(s.client.calls[id].reply.value, s.server.reqs[r].service.outcome)
    ensures forall t :: 0 <= t < |s.server.reqs| && InStep(s.server, t) ==>
              s.server.reqs[t].num == s.client.calls[id].num ==> t == r
  {
    InvOf(s);
    r := Behind(s, id);
    forall t | 0 <= t < |s.server.reqs| && InStep(s.server, t) && s.server.reqs[t].num == s.client.calls[id].num
      ensures t == r
    {
      OneRequestPerNumber(s, r, t);
    }
  }

  /** The success branch delivers the reply the method computed if and only if the
      method did not return an error with an empty text. */
  lemma ExactReplyIff(s: State, id: nat, r: nat)
    requires Reachable(s) && id in s.client.calls && s.client.calls[id].reply.Some?
    requires r < |s.server.reqs| && InStep(s.server, r) && s.server.reqs[r].num == s.client.calls[id].num
    ensures s.server.reqs[r].service.Called?
    ensures (exists b :: s.server.reqs[r].service.outcome == Ok(b) && s.client.calls[id].reply == Some(Payload(b)))
            <==> s.server.reqs[r].service.outcome != Err("")
  {
    var t := EndToEnd(s, id);
  }

  /** A request in step that was handed to its service and did not time out is answered
      with exactly what the service call returned: its reply and no error, or its error
      and no reply. */
  lemma InTimeAnswer(steps: seq<Step>, states: seq<State>, methods: set<string>, timed: bool, n: nat, i: nat)
    returns (k: nat)
    requires IsRun(steps, states, methods, timed) && n <= |steps| && i < |states[n].server.attempts|
    requires states[n].server.attempts[i].req < |states[n].server.reqs|
    requires states[n].server.reqs[states[n].server.attempts[i].req].spawned
    requires InStep(states[n].server, states[n].server.attempts[i].req)
    requires !timed || forall j, text :: 0 <= j < n ==> steps[j] != S(Timeout(states[n].server.attempts[i].req, text))
    ensures var a := states[n].server.attempts[i];
            && k < n && steps[k].S? && steps[k].s.ServiceReturn? && steps[k].s.r == a.req
            && (match steps[k].s.outcome
                case Ok(reply) => a.err == "" && a.body == Payload(reply)
                case Err(text) => a.err == text && a.body == Invalid)
  {
    k := D.InTimeResponse(steps, states, methods, timed, n, i);
    RunInv(steps, states, methods, timed, n);
    SuccessHasNoError(states[n], i);
  }

  lemma SuccessHasNoError(s: State, i: nat)
    requires Inv(s) && i < |s.server.attempts| && s.server.attempts[i].req < |s.server.reqs|
    requires InStep(s.server, s.server.attempts[i].req)
    ensures s.server.attempts[i].body.Payload? ==> s.server.attempts[i].err == ""
  {
    assert L.AttemptOk(s.server, s.server.attempts[i]);
    var r := s.server.attempts[i].req;
    assert FromFrame(s.server.reqs[r], s.req.log, r, s.req.pos);
  }

  // ----------------------------------------- how the receive loop ends

  /** The header read last has the number of call id. */
  predicate Heads(c: Client, resp: Chan, id: nat) {
    && 0 < resp.pos <= |resp.log| && resp.log[resp.pos - 1].Head?
    && resp.log[resp.pos - 1].num in c.issued && c.issued[resp.log[resp.pos - 1].num] == id && id in c.calls
  }

  /** Somebody else has taken the call out of the table: it was cancelled, or its write
      failed. */
  predicate GivenUp(c: Client, id: nat)
    requires id in c.calls
  {
    && c.calls[id].taken == 1 && !(c.recv.Taken? && c.recv.id == id) && c.calls[id].reply.None?
    && (c.calls[id].signals == 0 || c.calls[id].sending == SendReturned(true))
  }

  function HeadOfAttempt(a: Attempt): Token { Head(a.num, a.meth, a.err) }

  /** The response frame whose header was read last, and that no error precedes it. */
  lemma FrameOfHeader(c: Client, v: Server, resp: Chan) returns (j: nat)
    requires L.StreamOk(v, resp) && ReceiverAligned(c, resp) && (c.recv.GotHead? || c.recv.Taken?)
    ensures j == resp.pos / 2 < |v.attempts| && HeadOfAttempt(v.attempts[j]) == c.recv.head
    ensures forall k :: 0 <= k < j ==> v.attempts[k].err == ""
  {
    var p := resp.pos;
    j := p / 2;
    assert (p - 1) / 2 == j && resp.log[p - 1] == L.FrameToken(v.attempts, p - 1);
    NoErrorAttempts(v, resp, j);
  }

  /** Every header the client reads has the number of one of its calls. */
  lemma HeaderIsIssued(s: State) returns (id: nat)
    requires Inv(s) && s.client.recv.GotHead?
    ensures Heads(s.client, s.resp, id)
  {
    var j := FrameOfHeader(s.client, s.server, s.resp);
    DeliveryIsInStep(s.server, j);
    var r := s.server.attempts[j].req;
    assert L.AttemptOk(s.server, s.server.attempts[j]);
    InStepIsIssued(s, r);
    id := s.client.issued[s.client.recv.head.num];
  }

  /** No call gets a second response. */
  lemma NoSecondResponse(s: State, id: nat)
    requires Inv(s) && s.client.recv.GotHead? && Heads(s.client, s.resp, id)
    ensures s.client.calls[id].reply.None?
  {
    if s.client.calls[id].reply.Some? {
      var j := FrameOfHeader(s.client, s.server, s.resp);
      var i := DeliveryOf(s, id);
      SameNumberSameFrame(s, i, j);
    }
  }

  /** Two responses in step with one number are one. */
  lemma SameNumberSameFrame(s: State, i: nat, j: nat)
    requires Inv(s) && i < |s.server.attempts| && j < |s.server.attempts|
    requires s.server.attempts[i].num == s.server.attempts[j].num
    requires forall k :: (0 <= k < i || 0 <= k < j) ==> s.server.attempts[k].err == ""
    ensures i == j
  {
    assert L.AttemptOk(s.server, s.server.attempts[i]) && L.AttemptOk(s.server, s.server.attempts[j]);
    DeliveryIsInStep(s.server, i);
    DeliveryIsInStep(s.server, j);
    OneRequestPerNumber(s, s.server.attempts[i].req, s.server.attempts[j].req);
  }

  /** The number in a response is unknown if and only if its call was given up. */
  lemma UnknownIsGivenUp(s: State, id: nat)
    requires Inv(s) && s.client.recv.GotHead? && Heads(s.client, s.resp, id)
    ensures s.client.recv.head.num !in s.client.pending <==> GivenUp(s.client, id)
  {
    assert T.CallOk(s.client, id);
    NoSecondResponse(s, id);
  }

  /** After a header with an unknown number. */
  ghost predicate MissingOk(c: Client, resp: Chan) {
    c.recv.Missing? ==> exists id :: Heads(c, resp, id) && GivenUp(c, id)
  }

  lemma MissingTake(s: State)
    requires Inv(s) && Enabled(s, C(RecvTake))
    ensures MissingOk(Do(s, C(RecvTake)).client, Do(s, C(RecvTake)).resp)
  {
    var id := HeaderIsIssued(s);
    UnknownIsGivenUp(s, id);
    TakeIs(s.client, s.req, s.resp, id);
  }

  /** What RecvTake makes of the header of call id. */
  lemma TakeIs(c: Client, req: Chan, resp: Chan, id: nat)
    requires T.Inv(c) && ReceiverAligned(c, resp) && ClientEnabled(c, req, resp, RecvTake) && Heads(c, resp, id)
    requires c.recv.head.num !in c.pending <==> GivenUp(c, id)
    ensures var d := ClientDo(c, req, resp, RecvTake);
            && d.client.recv == (if GivenUp(c, id) then Missing else Taken(id, c.recv.head))
            && (GivenUp(c, id) ==> Heads(d.client, d.resp, id) && GivenUp(d.client, id))
  {
  }

  /** A call that was given up stays so. */
  lemma GivenUpStays(c: Client, req: Chan, resp: Chan, step: ClientStep, id: nat)
    requires T.Inv(c) && ClientEnabled(c, req, resp, step) && c.recv.Missing?
    requires ClientDo(c, req, resp, step).client.recv.Missing?
    requires Heads(c, resp, id) && GivenUp(c, id)
    ensures var d := ClientDo(c, req, resp, step); Heads(d.client, d.resp, id) && GivenUp(d.client, id)
  {
    assert T.CallOk(c, id);
    IssuedStep(c, req, resp, step);
    if step.TakeFailed? {
      T.GiveUpIs(c, step.id, step.text);
    }
  }

  lemma MissingClientStep(c: Client, req: Chan, resp: Chan, step: ClientStep)
    requires T.Inv(c) && MissingOk(c, resp) && ClientEnabled(c, req, resp, step) && !step.RecvTake?
    ensures MissingOk(ClientDo(c, req, resp, step).client, ClientDo(c, req, resp, step).resp)
  {
    if ClientDo(c, req, resp, step).client.recv.Missing? {
      OnlyTakeMisses(c, req, resp, step);
      var id :| Heads(c, resp, id) && GivenUp(c, id);
      GivenUpStays(c, req, resp, step, id);
    }
  }

  lemma MissingKept(c: Client, resp: Chan, resp': Chan)
    requires MissingOk(c, resp) && resp'.pos == resp.pos <= |resp'.log| && resp.pos <= |resp.log|
    requires forall k :: 0 <= k < resp.pos ==> resp'.log[k] == resp.log[k]
    ensures MissingOk(c, resp')
  {
    if c.recv.Missing? {
      var id :| Heads(c, resp, id) && GivenUp(c, id);
      assert Heads(c, resp', id);
    }
  }

  lemma MissingStep(s: State, step: Step)
    requires Inv(s) && MissingOk(s.client, s.resp) && Enabled(s, step)
    ensures MissingOk(Do(s, step).client, Do(s, step).resp)
  {
    if step == C(RecvTake) {
      MissingTake(s);
    } else if step.C? {
      MissingClientStep(s.client, s.req, s.resp, step.c);
    } else {
      ReadPartStays(s, step);
      MissingKept(s.client, s.resp, Do(s, step).resp);
    }
  }

  lemma OnlyTakeMisses(c: Client, req: Chan, resp: Chan, step: ClientStep)
    requires ClientEnabled(c, req, resp, step) && !step.RecvTake?
    requires ClientDo(c, req, resp, step).client.recv.Missing?
    ensures c.recv.Missing?
  {
  }

  lemma MissingAt(steps: seq<Step>, states: seq<State>, k: nat)
    requires |states| == |steps| + 1 && k < |steps| && StepAt(steps, states, k)
    requires Inv(states[k]) && MissingOk(states[k].client, states[k].resp)
    ensures MissingOk(states[k + 1].client, states[k + 1].resp)
  {
    MissingStep(states[k], steps[k]);
  }

  lemma {:induction false} MissingRun(steps: seq<Step>, states: seq<State>, methods: set<string>, timed: bool, n: nat)
    requires IsRun(steps, states, methods, timed) && n <= |steps|
    ensures MissingOk(states[n].client, states[n].resp)
  {
    if n > 0 {
      MissingRun(steps, states, methods, timed, n - 1);
      RunInv(steps, states, methods, timed, n - 1);
      MissingAt(steps, states, n - 1);
    }
  }

  lemma MissingOf(s: State)
    requires Reachable(s)
    ensures MissingOk(s.client, s.resp)
  {
    var steps, states, methods, timed :| IsRun(steps, states, methods, timed) && states[|steps|] == s;
    MissingRun(steps, states, methods, timed, |steps|);
  }

  /** A response header always has the number of one of the client's calls, and finds it
      in the table unless the call was given up. */
  lemma UnknownNumberIff(s: State) returns (id: nat)
    requires Reachable(s) && Enabled(s, C(RecvTake))
    ensures Heads(s.client, s.resp, id)
    ensures Do(s, C(RecvTake)).client.recv ==
              if GivenUp(s.client, id) then Missing else Taken(id, s.client.recv.head)
  {
    InvOf(s);
    id := HeaderIsIssued(s);
    UnknownIsGivenUp(s, id);
    TakeIs(s.client, s.req, s.resp, id);
  }

  /** A response body was read without an error. */
  predicate ReadsBody(step: ClientStep) {
    step == RecvMissing(None) || step == RecvError(None) || step == RecvReply(None)
  }

  /** The branches that end the loop with a nil error. */
  lemma NilBranches(c: Client, req: Chan, resp: Chan, step: ClientStep)
    requires ClientEnabled(c, req, resp, step) && !c.recv.Ending?
    ensures ClientDo(c, req, resp, step).client.recv == Ending(None) <==>
              ReadsBody(step) && (c.recv.Missing? || (c.recv.Taken? && c.recv.head.err != ""))
  {
  }

  /** The call in the receive loop's hands is the one of the header read last. */
  lemma TakenHeads(c: Client, resp: Chan, id: nat)
    requires T.Inv(c) && ReceiverAligned(c, resp) && c.recv.Taken?
    ensures Heads(c, resp, id) <==> id == c.recv.id
  {
  }

  /** A header that ends the loop: of call id, and with an error or given up. */
  predicate Fatal(c: Client, resp: Chan, id: nat) {
    Heads(c, resp, id) && (resp.log[resp.pos - 1].err != "" || GivenUp(c, id))
  }

  /** The receive loop ends with a nil error if and only if it reads the body of a response
      that carries an error or whose call was given up. */
  lemma NilEndingIff(s: State, step: ClientStep)
    requires Reachable(s) && Enabled(s, C(step)) && !s.client.recv.Ending?
    ensures Do(s, C(step)).client.recv == Ending(None) <==>
              ReadsBody(step) && exists id :: Fatal(s.client, s.resp, id)
  {
    InvOf(s);
    MissingOf(s);
    NilBranches(s.client, s.req, s.resp, step);
    if ReadsBody(step) {
      FatalIff(s.client, s.resp);
    }
  }

  lemma FatalIff(c: Client, resp: Chan)
    requires T.Inv(c) && ReceiverAligned(c, resp) && MissingOk(c, resp) && (c.recv.Missing? || c.recv.Taken?)
    ensures (exists id :: Fatal(c, resp, id)) <==> c.recv.Missing? || c.recv.head.err != ""
  {
    if c.recv.Missing? {
      var id :| Heads(c, resp, id) && GivenUp(c, id);
      assert Fatal(c, resp, id);
    } else {
      forall id ensures Heads(c, resp, id) <==> id == c.recv.id {
        TakenHeads(c, resp, id);
      }
      assert Fatal(c, resp, c.recv.id) <==> c.recv.head.err != "";
    }
  }
}
