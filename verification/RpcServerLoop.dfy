/** The server side of a connection: every decoded header is answered exactly once,
    response frames never interleave, and the connection closes only when drained. */
module RpcServerLoop {
  import opened Wrappers
  import opened RpcProtocol

  /** The loop of serveCodec is still occupied with this request. */
  predicate Current(s: Server, r: nat) {
    r == |s.reqs| - 1 && (s.serve.GotHeader? || s.serve.Answering?)
  }

  predicate HasLock(q: Req) { q.answer.Locked? || q.answer.HeadOut? || q.answer.Written? }

  /** cc.Write has been called for the request. */
  predicate Attempted(q: Req) { HasLock(q) || q.answer.Answered? }

  predicate ReqOk(s: Server, r: nat)
    requires r < |s.reqs|
  {
    var q := s.reqs[r];
    && (r in s.active ==> q.spawned)
    && (q.spawned && !q.answer.Answered? ==> r in s.active)
    && (s.lock == Some(r) <==> HasLock(q))
    && (q.spawned || q.answer.Answered? || Current(s, r))
    && (Current(s, r) ==> !q.spawned)
    && (s.serve.GotHeader? && Current(s, r) ==> q.answer.Undecided?)
    && (s.serve.Answering? && Current(s, r) ==> !q.answer.Undecided?)
    && (q.spawned ==> q.args.Some? && !q.service.NotCalled? && q.meth in s.methods)
    && (!q.spawned ==> q.args.None? && q.service.NotCalled? && q.body.Invalid?)
    && (q.body.Payload? ==> q.service == Called(Ok(q.body.data)))
    && (!q.answer.Undecided? && q.err == "" ==>
          q.service.Called? && q.body == (match q.service.outcome case Ok(b) => Payload(b) case Err(_) => Invalid)
          && (q.service.outcome.Err? ==> q.service.outcome.text == ""))
  }

  /** A response attempt carries the number, method, error and body of its request. */
  predicate AttemptOk(s: Server, a: Attempt) {
    && a.req < |s.reqs|
    && var q := s.reqs[a.req];
       a == Attempt(a.req, q.num, q.meth, q.err, q.body) && Attempted(q)
  }

  ghost predicate HasAttempt(s: Server, r: nat) {
    exists i :: 0 <= i < |s.attempts| && s.attempts[i].req == r
  }

  ghost predicate AttemptBefore(attempts: seq<Attempt>, r: nat, j: nat)
    requires j <= |attempts|
  {
    exists i :: 0 <= i < j && attempts[i].req == r
  }

  /** A request for an unknown method was answered before any later request. */
  ghost predicate UnknownFirst(s: Server, j: nat)
    requires j < |s.attempts|
  {
    forall r :: 0 <= r < |s.reqs| && r < s.attempts[j].req && s.reqs[r].meth !in s.methods ==>
      AttemptBefore(s.attempts, r, j)
  }

  /** At most one attempt per request, one for every request past the mutex. */
  ghost predicate AttemptsOk(s: Server) {
    && (forall i :: 0 <= i < |s.attempts| ==> AttemptOk(s, s.attempts[i]))
    && (forall i, j :: 0 <= i < j < |s.attempts| ==> s.attempts[i].req != s.attempts[j].req)
    && (forall r :: 0 <= r < |s.reqs| && Attempted(s.reqs[r]) ==> HasAttempt(s, r))
    && (forall j :: 0 <= j < |s.attempts| ==> UnknownFirst(s, j))
  }

  /** The wait group counts the active handlers, and nothing is active once closed. */
  predicate Counted(s: Server) {
    && s.wg == |s.active|
    && (forall r :: r in s.active ==> r < |s.reqs|)
    && (s.serve.GotHeader? || s.serve.Answering? ==> s.reqs != [])
    && (s.serve.Closed? ==> s.active == {})
  }

  ghost predicate Inv(s: Server) {
    && Counted(s)
    && (forall r :: 0 <= r < |s.reqs| ==> ReqOk(s, r))
    && AttemptsOk(s)
    && (s.lock.Some? ==> s.lock.value < |s.reqs| && s.attempts != [] && s.attempts[|s.attempts| - 1].req == s.lock.value)
  }

  /** Steps that decide what becomes of the request just read. */
  predicate CurrentStep(step: ServerStep) {
    step.UnknownMethod? || step.ReadArgs? || step.ReadArgsFail?
  }

  /** Steps that change no request. */
  predicate LoopStep(step: ServerStep) {
    step.ReadHead? || step.ReadHeadFail? || step.WgDone? || step.Resume? || step.Close?
  }

  lemma ReqReadStep(s: Server, req: Chan, resp: Chan, garbled: Token, r: nat)
    requires Inv(s) && ServerEnabled(s, req, resp, ReadHead(garbled))
    requires r < |ServerDo(s, req, resp, ReadHead(garbled)).server.reqs|
    ensures ReqOk(ServerDo(s, req, resp, ReadHead(garbled)).server, r)
  {
    if r < |s.reqs| {
      assert ReqOk(s, r);
    }
  }

  lemma ReqLoopStep(s: Server, req: Chan, resp: Chan, step: ServerStep, r: nat)
    requires Inv(s) && ServerEnabled(s, req, resp, step) && LoopStep(step)
    requires r < |ServerDo(s, req, resp, step).server.reqs|
    ensures ReqOk(ServerDo(s, req, resp, step).server, r)
  {
    if step.ReadHead? {
      ReqReadStep(s, req, resp, step.garbled, r);
    } else {
      assert ReqOk(s, r);
    }
  }

  lemma ReqCurrentStep(s: Server, req: Chan, resp: Chan, step: ServerStep, r: nat)
    requires Inv(s) && ServerEnabled(s, req, resp, step) && CurrentStep(step)
    requires r < |ServerDo(s, req, resp, step).server.reqs|
    ensures ReqOk(ServerDo(s, req, resp, step).server, r)
  {
    assert ReqOk(s, r);
  }

  /** A handler's step and the request it works on. */
  lemma ReqHandlerStep(s: Server, req: Chan, resp: Chan, step: ServerStep)
    requires Inv(s) && ServerEnabled(s, req, resp, step) && !LoopStep(step) && !CurrentStep(step)
    ensures step.r < |ServerDo(s, req, resp, step).server.reqs|
    ensures ReqOk(ServerDo(s, req, resp, step).server, step.r)
  {
    assert ReqOk(s, step.r);
  }

  lemma ReqOtherStep(s: Server, req: Chan, resp: Chan, step: ServerStep, r: nat)
    requires Inv(s) && ServerEnabled(s, req, resp, step) && !LoopStep(step) && !CurrentStep(step)
    requires r < |s.reqs| && r != step.r
    ensures r < |ServerDo(s, req, resp, step).server.reqs|
    ensures ReqOk(ServerDo(s, req, resp, step).server, r)
  {
    assert ReqOk(s, r);
    assert ReqOk(s, step.r);
  }

  lemma WgLoopStep(s: Server, req: Chan, resp: Chan, step: ServerStep)
    requires Counted(s) && ServerEnabled(s, req, resp, step) && LoopStep(step)
    ensures Counted(ServerDo(s, req, resp, step).server)
  {
  }

  lemma WgCurrentStep(s: Server, req: Chan, resp: Chan, step: ServerStep)
    requires Counted(s) && ServerEnabled(s, req, resp, step) && CurrentStep(step)
    requires |s.reqs| - 1 !in s.active
    ensures Counted(ServerDo(s, req, resp, step).server)
  {
  }

  lemma WgHandlerStep(s: Server, req: Chan, resp: Chan, step: ServerStep)
    requires Counted(s) && ServerEnabled(s, req, resp, step) && !LoopStep(step) && !CurrentStep(step)
    ensures Counted(ServerDo(s, req, resp, step).server)
  {
  }

  lemma WgStep(s: Server, req: Chan, resp: Chan, step: ServerStep)
    requires Inv(s) && ServerEnabled(s, req, resp, step)
    ensures Counted(ServerDo(s, req, resp, step).server)
  {
    if LoopStep(step) {
      WgLoopStep(s, req, resp, step);
    } else if CurrentStep(step) {
      assert ReqOk(s, |s.reqs| - 1);
      WgCurrentStep(s, req, resp, step);
    } else {
      WgHandlerStep(s, req, resp, step);
    }
  }

  /** Requests are only appended. */
  lemma ReqsGrow(s: Server, req: Chan, resp: Chan, step: ServerStep)
    requires ServerEnabled(s, req, resp, step)
    ensures var d := ServerDo(s, req, resp, step).server;
            |s.reqs| <= |d.reqs| && d.methods == s.methods
  {
  }

  /** Only Lock makes an attempt. */
  lemma AttemptsKept(s: Server, req: Chan, resp: Chan, step: ServerStep)
    requires ServerEnabled(s, req, resp, step) && !step.Lock?
    ensures ServerDo(s, req, resp, step).server.attempts == s.attempts
  {
  }

  /** A request's header stays; once decided, what will be sent stays; and an attempt is
      not forgotten. */
  predicate Onward(q: Req, q': Req) {
    && q'.num == q.num && q'.meth == q.meth
    && (!q.answer.Undecided? ==> q'.err == q.err && q'.body == q.body && q'.spawned == q.spawned)
    && (Attempted(q) ==> Attempted(q'))
  }

  lemma StableHandler(s: Server, req: Chan, resp: Chan, step: ServerStep)
    requires Inv(s) && ServerEnabled(s, req, resp, step) && !LoopStep(step) && !CurrentStep(step)
    ensures step.r < |s.reqs| && step.r < |ServerDo(s, req, resp, step).server.reqs|
    ensures var q, q' := s.reqs[step.r], ServerDo(s, req, resp, step).server.reqs[step.r];
            Onward(q, q') && (Attempted(q') ==> Attempted(q) || step.Lock?)
  {
    assert ReqOk(s, step.r);
  }

  lemma StableCurrent(s: Server, req: Chan, resp: Chan, step: ServerStep)
    requires Inv(s) && ServerEnabled(s, req, resp, step) && CurrentStep(step)
    ensures s.reqs != [] && |s.reqs| == |ServerDo(s, req, resp, step).server.reqs|
    ensures var q, q' := s.reqs[|s.reqs| - 1], ServerDo(s, req, resp, step).server.reqs[|s.reqs| - 1];
            Onward(q, q') && (Attempted(q') ==> Attempted(q))
  {
    assert ReqOk(s, |s.reqs| - 1);
  }

  /** A step changes no request but the one it works on. */
  lemma Untouched(s: Server, req: Chan, resp: Chan, step: ServerStep, r: nat)
    requires ServerEnabled(s, req, resp, step) && r < |s.reqs|
    requires CurrentStep(step) ==> r != |s.reqs| - 1
    requires !LoopStep(step) && !CurrentStep(step) ==> r != step.r
    ensures r < |ServerDo(s, req, resp, step).server.reqs|
    ensures ServerDo(s, req, resp, step).server.reqs[r] == s.reqs[r]
  {
  }

  /** What holds of every request over a step; only Lock starts an attempt. */
  lemma Stable(s: Server, req: Chan, resp: Chan, step: ServerStep, r: nat)
    requires Inv(s) && ServerEnabled(s, req, resp, step) && r < |s.reqs|
    ensures r < |ServerDo(s, req, resp, step).server.reqs|
    ensures var q, q' := s.reqs[r], ServerDo(s, req, resp, step).server.reqs[r];
            Onward(q, q') && (Attempted(q') ==> Attempted(q) || step == Lock(r))
  {
    if CurrentStep(step) && r == |s.reqs| - 1 {
      StableCurrent(s, req, resp, step);
    } else if !LoopStep(step) && !CurrentStep(step) && r == step.r {
      StableHandler(s, req, resp, step);
    } else {
      Untouched(s, req, resp, step, r);
    }
  }

  /** Attempts made so far keep describing their requests. */
  lemma AttemptStep(s: Server, req: Chan, resp: Chan, step: ServerStep, i: nat)
    requires Inv(s) && ServerEnabled(s, req, resp, step) && i < |s.attempts|
    ensures AttemptOk(ServerDo(s, req, resp, step).server, s.attempts[i])
  {
    assert AttemptOk(s, s.attempts[i]);
    ReqsGrow(s, req, resp, step);
    Stable(s, req, resp, step, s.attempts[i].req);
  }

  lemma UnknownFirstStep(s: Server, req: Chan, resp: Chan, step: ServerStep, j: nat)
    requires Inv(s) && ServerEnabled(s, req, resp, step) && j < |s.attempts|
    requires s.attempts <= ServerDo(s, req, resp, step).server.attempts
    ensures UnknownFirst(ServerDo(s, req, resp, step).server, j)
  {
    var d := ServerDo(s, req, resp, step).server;
    assert UnknownFirst(s, j);
    assert AttemptOk(s, s.attempts[j]);
    ReqsGrow(s, req, resp, step);
    forall r | 0 <= r < |d.reqs| && r < d.attempts[j].req && d.reqs[r].meth !in d.methods
      ensures AttemptBefore(d.attempts, r, j)
    {
      Stable(s, req, resp, step, r);
      var i :| 0 <= i < j && s.attempts[i].req == r;
      assert d.attempts[i].req == r;
    }
  }

  /** A request past the mutex keeps its attempt. */
  lemma HasAttemptStep(s: Server, req: Chan, resp: Chan, step: ServerStep, r: nat)
    requires Inv(s) && ServerEnabled(s, req, resp, step) && step != Lock(r)
    requires s.attempts <= ServerDo(s, req, resp, step).server.attempts
    requires r < |ServerDo(s, req, resp, step).server.reqs| && Attempted(ServerDo(s, req, resp, step).server.reqs[r])
    ensures HasAttempt(ServerDo(s, req, resp, step).server, r)
  {
    var d := ServerDo(s, req, resp, step).server;
    if r < |s.reqs| {
      Stable(s, req, resp, step, r);
      var i :| 0 <= i < |s.attempts| && s.attempts[i].req == r;
      assert d.attempts[i].req == r;
    } else {
      NewIsUndecided(s, req, resp, step, r);
    }
  }

  lemma NewIsUndecided(s: Server, req: Chan, resp: Chan, step: ServerStep, r: nat)
    requires ServerEnabled(s, req, resp, step)
    requires |s.reqs| <= r < |ServerDo(s, req, resp, step).server.reqs|
    ensures ServerDo(s, req, resp, step).server.reqs[r].answer.Undecided?
  {
  }

  /** The attempt that Lock makes: the first of its request, and after those of all
      earlier requests for unknown methods. */
  lemma NewAttempt(s: Server, req: Chan, resp: Chan, r: nat)
    requires Inv(s) && ServerEnabled(s, req, resp, Lock(r))
    ensures var d, n := ServerDo(s, req, resp, Lock(r)).server, |s.attempts|;
            && |d.attempts| == n + 1 && s.attempts <= d.attempts && d.attempts[n].req == r
            && AttemptOk(d, d.attempts[n]) && UnknownFirst(d, n)
            && forall i :: 0 <= i < n ==> s.attempts[i].req != r
  {
    var d, n := ServerDo(s, req, resp, Lock(r)).server, |s.attempts|;
    forall i | 0 <= i < n ensures s.attempts[i].req != r {
      assert AttemptOk(s, s.attempts[i]);
    }
    forall u | 0 <= u < |d.reqs| && u < r && d.reqs[u].meth !in d.methods
      ensures AttemptBefore(d.attempts, u, n)
    {
      assert ReqOk(s, u);
      var i :| 0 <= i < n && s.attempts[i].req == u;
      assert d.attempts[i].req == u;
    }
  }

  lemma AttemptsExact(s: Server, req: Chan, resp: Chan, step: ServerStep)
    requires Inv(s) && ServerEnabled(s, req, resp, step)
    ensures AttemptsOk(ServerDo(s, req, resp, step).server)
  {
    var d := ServerDo(s, req, resp, step).server;
    if step.Lock? {
      NewAttempt(s, req, resp, step.r);
      assert HasAttempt(d, step.r);
    } else {
      AttemptsKept(s, req, resp, step);
    }
    forall i | 0 <= i < |s.attempts| ensures AttemptOk(d, s.attempts[i]) && UnknownFirst(d, i) {
      AttemptStep(s, req, resp, step, i);
      UnknownFirstStep(s, req, resp, step, i);
    }
    forall r | 0 <= r < |d.reqs| && Attempted(d.reqs[r]) ensures HasAttempt(d, r) {
      if step != Lock(r) {
        HasAttemptStep(s, req, resp, step, r);
      }
    }
  }

  lemma LockStep(s: Server, req: Chan, resp: Chan, step: ServerStep)
    requires Inv(s) && ServerEnabled(s, req, resp, step)
    ensures var d := ServerDo(s, req, resp, step).server;
            d.lock.Some? ==> d.lock.value < |d.reqs| && d.attempts != []
                             && d.attempts[|d.attempts| - 1].req == d.lock.value
  {
  }

  lemma InvStep(s: Server, req: Chan, resp: Chan, step: ServerStep)
    requires Inv(s) && ServerEnabled(s, req, resp, step)
    ensures Inv(ServerDo(s, req, resp, step).server)
  {
    var d := ServerDo(s, req, resp, step).server;
    WgStep(s, req, resp, step);
    AttemptsExact(s, req, resp, step);
    LockStep(s, req, resp, step);
    forall r | 0 <= r < |d.reqs| ensures ReqOk(d, r) {
      if LoopStep(step) {
        ReqLoopStep(s, req, resp, step, r);
      } else if CurrentStep(step) {
        ReqCurrentStep(s, req, resp, step, r);
      } else if r == step.r {
        ReqHandlerStep(s, req, resp, step);
      } else {
        ReqOtherStep(s, req, resp, step, r);
      }
    }
  }

  // --------------------------------------------------------- response stream

  /** Token k of the concatenation of all response frames, in the order of attempts. */
  function FrameToken(attempts: seq<Attempt>, k: nat): Token
    requires k / 2 < |attempts|
  {
    var a := attempts[k / 2];
    if k % 2 == 0 then Head(a.num, a.meth, a.err) else Data(a.body)
  }

  /** How much of the last frame is still to be written. */
  function Owed(s: Server): nat {
    if s.lock.Some? && s.lock.value < |s.reqs| then
      match s.reqs[s.lock.value].answer
      case Locked => 2
      case HeadOut => 1
      case _ => 0
    else 0
  }

  /** What was delivered is a prefix of that concatenation. */
  ghost predicate StreamOk(s: Server, resp: Chan) {
    && resp.pos <= |resp.log|
    && (forall k :: 0 <= k < |resp.log| ==> k / 2 < |s.attempts| && resp.log[k] == FrameToken(s.attempts, k))
    && (!resp.broken ==> |resp.log| + Owed(s) == 2 * |s.attempts|)
  }

  /** Appending the next token of the last frame. */
  lemma StreamAppend(s: Server, d: Server, resp: Chan, token: Token, delivered: nat, ok: bool)
    requires StreamOk(s, resp) && s.attempts != [] && d.attempts == s.attempts
    requires delivered <= 1 && (resp.broken ==> delivered == 0)
    requires !resp.broken ==> |resp.log| / 2 < |s.attempts| && token == FrameToken(s.attempts, |resp.log|)
    requires ok ==> Owed(d) + 1 == Owed(s)
    ensures StreamOk(d, Push(resp, [token], delivered, ok))
  {
    var k := |resp.log|;
    if delivered == 1 {
      assert [token][..1] == [token];
      assert (resp.log + [token])[k] == FrameToken(s.attempts, k);
    } else {
      assert resp.log + [token][..0] == resp.log;
    }
  }

  /** Writing under the mutex extends the last frame. */
  lemma StreamHead(s: Server, req: Chan, resp: Chan, r: nat, delivered: nat, ok: bool)
    requires Inv(s) && StreamOk(s, resp) && ServerEnabled(s, req, resp, WriteHead(r, delivered, ok))
    ensures var d := ServerDo(s, req, resp, WriteHead(r, delivered, ok)); StreamOk(d.server, d.resp)
  {
    assert ReqOk(s, r);
    assert AttemptOk(s, s.attempts[|s.attempts| - 1]);
    var d := ServerDo(s, req, resp, WriteHead(r, delivered, ok));
    StreamAppend(s, d.server, resp, HeadOf(s.reqs[r]), delivered, ok);
  }

  lemma StreamBody(s: Server, req: Chan, resp: Chan, r: nat, delivered: nat, ok: bool)
    requires Inv(s) && StreamOk(s, resp) && ServerEnabled(s, req, resp, WriteBody(r, delivered, ok))
    ensures var d := ServerDo(s, req, resp, WriteBody(r, delivered, ok)); StreamOk(d.server, d.resp)
  {
    assert ReqOk(s, r);
    assert AttemptOk(s, s.attempts[|s.attempts| - 1]);
    var d := ServerDo(s, req, resp, WriteBody(r, delivered, ok));
    StreamAppend(s, d.server, resp, Data(s.reqs[r].body), delivered, ok);
  }

  /** All other steps leave the stream alone, and owe a new frame exactly on Lock. */
  lemma OwedStep(s: Server, req: Chan, resp: Chan, step: ServerStep)
    requires Inv(s) && ServerEnabled(s, req, resp, step) && !step.WriteHead? && !step.WriteBody?
    ensures var d := ServerDo(s, req, resp, step);
            Owed(d.server) + 2 * |s.attempts| == Owed(s) + 2 * |d.server.attempts|
  {
    if LoopStep(step) || CurrentStep(step) {
      OwedLoopStep(s, req, resp, step);
    } else {
      OwedHandlerStep(s, req, resp, step);
    }
  }

  lemma OwedLoopStep(s: Server, req: Chan, resp: Chan, step: ServerStep)
    requires Inv(s) && ServerEnabled(s, req, resp, step) && (LoopStep(step) || CurrentStep(step))
    ensures Owed(ServerDo(s, req, resp, step).server) == Owed(s)
    ensures ServerDo(s, req, resp, step).server.attempts == s.attempts
  {
    LockKept(s, req, resp, step);
    AttemptsKept(s, req, resp, step);
    if s.lock.Some? {
      NotCurrent(s);
      Untouched(s, req, resp, step, s.lock.value);
    }
  }

  lemma LockKept(s: Server, req: Chan, resp: Chan, step: ServerStep)
    requires ServerEnabled(s, req, resp, step) && (LoopStep(step) || CurrentStep(step))
    ensures ServerDo(s, req, resp, step).server.lock == s.lock
    ensures CurrentStep(step) ==> s.serve.GotHeader?
  {
  }

  /** The holder of the mutex has been decided, so its header is not the one just read. */
  lemma NotCurrent(s: Server)
    requires Inv(s) && s.lock.Some?
    ensures s.lock.value < |s.reqs| && (s.serve.GotHeader? ==> s.lock.value != |s.reqs| - 1)
  {
    assert ReqOk(s, s.lock.value);
  }

  lemma OwedHandlerStep(s: Server, req: Chan, resp: Chan, step: ServerStep)
    requires Inv(s) && ServerEnabled(s, req, resp, step) && !step.WriteHead? && !step.WriteBody?
    requires !LoopStep(step) && !CurrentStep(step)
    ensures var d := ServerDo(s, req, resp, step);
            Owed(d.server) + 2 * |s.attempts| == Owed(s) + 2 * |d.server.attempts|
  {
    if s.lock.Some? {
      assert ReqOk(s, s.lock.value);
    }
    assert ReqOk(s, step.r);
  }

  /** Other steps write nothing to the stream. */
  lemma StreamKept(s: Server, req: Chan, resp: Chan, step: ServerStep)
    requires ServerEnabled(s, req, resp, step) && !step.WriteHead? && !step.WriteBody?
    ensures var d := ServerDo(s, req, resp, step);
            && s.attempts <= d.server.attempts && d.resp.log == resp.log && d.resp.pos == resp.pos
            && (resp.broken ==> d.resp.broken)
  {
  }

  lemma StreamOther(s: Server, req: Chan, resp: Chan, step: ServerStep)
    requires Inv(s) && StreamOk(s, resp) && ServerEnabled(s, req, resp, step)
    requires !step.WriteHead? && !step.WriteBody?
    ensures StreamOk(ServerDo(s, req, resp, step).server, ServerDo(s, req, resp, step).resp)
  {
    OwedStep(s, req, resp, step);
    StreamKept(s, req, resp, step);
    var d := ServerDo(s, req, resp, step).server;
    forall k | 0 <= k < |resp.log| ensures k / 2 < |d.attempts| && FrameToken(d.attempts, k) == resp.log[k] {
      assert d.attempts[k / 2] == s.attempts[k / 2];
    }
  }

  lemma StreamStep(s: Server, req: Chan, resp: Chan, step: ServerStep)
    requires Inv(s) && StreamOk(s, resp) && ServerEnabled(s, req, resp, step)
    ensures StreamOk(ServerDo(s, req, resp, step).server, ServerDo(s, req, resp, step).resp)
  {
    if step.WriteHead? {
      StreamHead(s, req, resp, step.r, step.delivered, step.ok);
    } else if step.WriteBody? {
      StreamBody(s, req, resp, step.r, step.delivered, step.ok);
    } else {
      StreamOther(s, req, resp, step);
    }
  }

  /** What holds of server and response stream in every reachable state. */
  ghost predicate SideInv(s: State) { Inv(s.server) && StreamOk(s.server, s.resp) }

  lemma SideStep(s: State, step: Step)
    requires SideInv(s) && Enabled(s, step)
    ensures SideInv(Do(s, step))
  {
    match step
    case C(c) =>
    case S(v) =>
      InvStep(s.server, s.req, s.resp, v);
      StreamStep(s.server, s.req, s.resp, v);
    case CutReq(_) =>
    case CutResp(_) =>
  }

  lemma {:induction false} RunInv(steps: seq<Step>, states: seq<State>, methods: set<string>, timed: bool, n: nat)
    requires IsRun(steps, states, methods, timed) && n <= |steps|
    ensures SideInv(states[n])
  {
    if n > 0 {
      RunInv(steps, states, methods, timed, n - 1);
      assert StepAt(steps, states, n - 1);
      SideStep(states[n - 1], steps[n - 1]);
    }
  }

  lemma ReachableInv(s: State)
    requires Reachable(s)
    ensures SideInv(s)
  {
    var steps, states, methods, timed :| IsRun(steps, states, methods, timed) && states[|steps|] == s;
    RunInv(steps, states, methods, timed, |steps|);
  }

  // ------------------------------------------------------------ main results

  /** Every response attempt answers a decoded header with that header's number and
      method, no header gets two, and a response without an error is what the request's
      own service call returned, which had returned by then: its reply, or the placeholder
      for an error with an empty text. */
  lemma AtMostOneResponse(s: State, i: nat)
    requires Reachable(s) && i < |s.server.attempts|
    ensures var a := s.server.attempts[i];
            && a.req < |s.server.reqs|
            && a.num == s.server.reqs[a.req].num && a.meth == s.server.reqs[a.req].meth
            && (a.body.Payload? ==> s.server.reqs[a.req].service == Called(Ok(a.body.data)))
            && (a.body.Invalid? && a.err == "" ==> s.server.reqs[a.req].service == Called(Err("")))
            && (forall j :: 0 <= j < |s.server.attempts| && j != i ==> s.server.attempts[j].req != a.req)
  {
    ReachableInv(s);
    assert AttemptOk(s.server, s.server.attempts[i]);
    assert ReqOk(s.server, s.server.attempts[i].req);
  }

  /** When serveCodec has closed the connection no handler is in flight and every
      decoded header has been answered, also those whose service was still running
      when their timeout fired. */
  lemma ClosedMeansAllAnswered(s: State, r: nat)
    requires Reachable(s) && s.server.serve.Closed? && r < |s.server.reqs|
    ensures s.server.wg == 0 && s.server.active == {}
    ensures s.server.reqs[r].answer.Answered? && HasAttempt(s.server, r)
  {
    ReachableInv(s);
    assert ReqOk(s.server, r);
  }

  /** Response frames never interleave: everything delivered is, token for token, a
      prefix of complete frames in the order of the attempts. */
  lemma FramesDoNotInterleave(s: State, k: nat)
    requires Reachable(s) && k < |s.resp.log|
    ensures k / 2 < |s.server.attempts| && s.resp.log[k] == FrameToken(s.server.attempts, k)
    ensures !s.resp.broken && s.server.lock.None? ==> |s.resp.log| == 2 * |s.server.attempts|
  {
    ReachableInv(s);
  }
}
