/** One RPC connection: the client of rpc/client.go, the server loop of
    rpc/server.go, and the two byte streams between them, as a step machine.

    A stream is a log of codec tokens (headers and bodies) with a read position.
    Every step is one atomic piece of one goroutine: a critical section under a
    mutex, a read or write on the codec, the return of a service method, a timeout.
    Each client `Write` is one atomic step. */
module RpcProtocol {

  import opened Wrappers

  /** A decoded body: an argument or reply value, or the placeholder `struct{}{}`. */
  datatype Body = Payload(data: string) | Invalid

  datatype Token = Head(num: nat, meth: string, err: string) | Data(body: Body)

  /** All tokens ever delivered, how many were read, and whether writes still arrive. */
  datatype Chan = Chan(log: seq<Token>, pos: nat, broken: bool)

  /** What a service method returned. */
  datatype Outcome = Ok(reply: string) | Err(text: string)

  const TWO_TO_THE_64: nat := 0x1_0000_0000_0000_0000

  // ------------------------------------------------------------------ client

  /** Progress of `send`: the call is registered; its write failed; `send` returned; it
      waits in done() for room in the Done channel. */
  datatype Sending = Registered | WriteFailed | SendReturned(failed: bool) | Blocked

  /** A Call object. `taken` counts how often removeCall handed it out, `signals` how
      often it was put on its Done channel. The channel holds one, and nobody receives
      before `Go` has returned; `room`: it was given to `Go` with room for more. */
  datatype Call = Call(num: nat, meth: string, args: string, room: bool, sending: Sending,
                       taken: nat, reply: Option<Body>, error: Option<string>, signals: nat)

  /** Progress of the receive loop. */
  datatype Recv =
    | AtLoop
    | GotHead(head: Token)
    | Missing
    | Taken(id: nat, head: Token)
    | Ending(err: Option<string>)
    | Stopped(err: Option<string>)

  /** `issued` records which call got each sequence number, `left` the numbers that were
      pending when terminateCalls ran. */
  datatype Client = Client(next: nat, pending: map<nat, nat>, calls: map<nat, Call>,
                           issued: map<nat, nat>, left: set<nat>, recv: Recv)

  datatype ClientStep =
    | Register(id: nat, meth: string, args: string, room: bool)
    | Write(id: nat, delivered: nat, ok: bool)
    | TakeFailed(id: nat, text: string)
    | Cancel(id: nat)
    | RecvHead
    | RecvFail(text: string)
    | RecvTake
    | RecvMissing(readErr: Option<string>)
    | RecvError(readErr: Option<string>)
    | RecvReply(readErr: Option<string>)
    | Terminate

  function RequestFrame(c: Call): seq<Token> {
    [Head(c.num, c.meth, ""), Data(Payload(c.args))]
  }

  /** Write `tokens`; only the first `delivered` arrive. A failed or lossy write is the
      last one that arrives: the codec closes the connection, or its buffer is stuck. */
  function Push(ch: Chan, tokens: seq<Token>, delivered: nat, ok: bool): Chan
    requires delivered <= |tokens|
  {
    Chan(ch.log + tokens[..delivered], ch.pos, ch.broken || !ok || delivered < |tokens|)
  }

  predicate CanPush(ch: Chan, tokens: seq<Token>, delivered: nat) {
    delivered <= |tokens| && (ch.broken ==> delivered == 0)
  }

  predicate HasData(ch: Chan) { ch.pos < |ch.log| && ch.log[ch.pos].Data? }

  predicate ClientEnabled(c: Client, req: Chan, resp: Chan, step: ClientStep) {
    match step
    case Register(id, _, _, _) => id !in c.calls && 0 < c.next < TWO_TO_THE_64
    case Write(id, delivered, _) =>
      id in c.calls && c.calls[id].sending.Registered? && CanPush(req, RequestFrame(c.calls[id]), delivered)
    case TakeFailed(id, _) => id in c.calls && c.calls[id].sending.WriteFailed?
    case Cancel(id) => id in c.calls && c.calls[id].sending.SendReturned?
    case RecvHead => c.recv.AtLoop? && resp.pos < |resp.log| && resp.log[resp.pos].Head?
    case RecvFail(_) => c.recv.AtLoop?
    case RecvTake => c.recv.GotHead? && c.recv.head.Head?
    case RecvMissing(readErr) => c.recv.Missing? && (readErr.None? ==> HasData(resp))
    case RecvError(readErr) =>
      && c.recv.Taken? && c.recv.head.Head? && c.recv.head.err != "" && c.recv.id in c.calls
      && (readErr.None? ==> HasData(resp))
    case RecvReply(readErr) =>
      && c.recv.Taken? && c.recv.head.Head? && c.recv.head.err == "" && c.recv.id in c.calls
      && (readErr.None? ==> HasData(resp))
    case Terminate => c.recv.Ending?
  }

  /** registerCall: a new call gets the next number and enters the table. */
  function RegisterCall(c: Client, id: nat, meth: string, args: string, room: bool): Client {
    var call := Call(c.next, meth, args, room, Registered, 0, None, None, 0);
    Client((c.next + 1) % TWO_TO_THE_64, c.pending[c.next := id], c.calls[id := call],
           c.issued[c.next := id], c.left, c.recv)
  }

  /** removeCall: the call under a number, if any, leaves the table. */
  function RemoveCall(c: Client, num: nat): Client {
    if num in c.pending && c.pending[num] in c.calls then
      var id := c.pending[num];
      c.(pending := c.pending - {num}, calls := c.calls[id := c.calls[id].(taken := c.calls[id].taken + 1)])
    else c
  }

  /** call.Error = error; call.done() */
  function Finish(c: Client, id: nat, error: Option<string>): Client
    requires id in c.calls
  {
    c.(calls := c.calls[id := c.calls[id].(error := error, signals := c.calls[id].signals + 1)])
  }

  /** call.Error = error, and no more. */
  function Failed(c: Client, id: nat, error: Option<string>): Client
    requires id in c.calls
  {
    c.(calls := c.calls[id := c.calls[id].(error := error)])
  }

  function Sent(c: Client, id: nat, sending: Sending): Client
    requires id in c.calls
  {
    c.(calls := c.calls[id := c.calls[id].(sending := sending)])
  }

  /** done() would find the Done channel full, before `Go` has returned. */
  predicate Full(call: Call) { call.signals > 0 && !call.room }

  /** The end of `send` after a failed write: removeCall, and if that found the call, its
      error and done(). */
  function GiveUp(c: Client, id: nat, text: string): Client
    requires id in c.calls
  {
    var num := c.calls[id].num;
    if num in c.pending && c.pending[num] in c.calls then
      var who := c.pending[num];
      if Full(c.calls[who]) then
        Failed(RemoveCall(Sent(c, id, Blocked), num), who, Some(text))
      else Finish(RemoveCall(Sent(c, id, SendReturned(true)), num), who, Some(text))
    else Sent(c, id, SendReturned(true))
  }

  function Advance(ch: Chan): Chan { ch.(pos := ch.pos + 1) }

  datatype ClientResult = ClientResult(client: Client, req: Chan, resp: Chan)

  function ClientDo(c: Client, req: Chan, resp: Chan, step: ClientStep): ClientResult
    requires ClientEnabled(c, req, resp, step)
  {
    match step
    case Register(id, meth, args, room) => ClientResult(RegisterCall(c, id, meth, args, room), req, resp)
    case Write(id, delivered, ok) =>
      ClientResult(Sent(c, id, if ok then SendReturned(false) else WriteFailed),
                   Push(req, RequestFrame(c.calls[id]), delivered, ok), resp)
    case TakeFailed(id, text) => ClientResult(GiveUp(c, id, text), req, resp)
    case Cancel(id) => ClientResult(RemoveCall(c, c.calls[id].num), req, resp)
    case RecvHead => ClientResult(c.(recv := GotHead(resp.log[resp.pos])), req, Advance(resp))
    case RecvFail(text) => ClientResult(c.(recv := Ending(Some(text))), req, resp)
    case RecvTake =>
      var num := c.recv.head.num;
      ClientResult(RemoveCall(c, num).(recv :=
        if num in c.pending && c.pending[num] in c.calls then Taken(c.pending[num], c.recv.head) else Missing), req, resp)
    case RecvMissing(readErr) => ClientResult(c.(recv := Ending(readErr)), req, resp)
    case RecvError(readErr) =>
      ClientResult(Finish(c, c.recv.id, Some(c.recv.head.err)).(recv := Ending(readErr)), req, resp)
    case RecvReply(readErr) =>
      (match readErr
       case Some(e) =>
         ClientResult(Finish(c, c.recv.id, Some("read body error " + e)).(recv := Ending(readErr)), req, resp)
       case None =>
         var id := c.recv.id;
         var c1 := c.(calls := c.calls[id := c.calls[id].(reply := Some(resp.log[resp.pos].body))], recv := AtLoop);
         ClientResult(Finish(c1, id, c.calls[id].error), req, Advance(resp)))
    case Terminate =>
      ClientResult(TerminateCalls(c, c.recv.err), req, resp)
  }

  /** The effect of terminateCalls on the call objects: all pending ones are finished,
      and stay in the table. */
  function Terminated(c: Client, err: Option<string>): map<nat, Call> {
    map id | id in c.calls ::
      if id in c.pending.Values then c.calls[id].(error := err, signals := c.calls[id].signals + 1)
      else c.calls[id]
  }

  /** terminateCalls, at the end of the receive loop. */
  function TerminateCalls(c: Client, err: Option<string>): Client {
    c.(recv := Stopped(err), calls := Terminated(c, err), left := c.pending.Keys)
  }

  // ------------------------------------------------------------------ server

  datatype Service = NotCalled | Calling | Called(outcome: Outcome)

  /** Progress of a request's response: not decided; handed to sendResponse; holding
      the mutex with nothing, the header, or all written; mutex released. */
  datatype Answer = Undecided | Ready | Locked | HeadOut | Written | Answered

  /** A decoded request header, by order of arrival; `err` is its header.Error. */
  datatype Req = Req(num: nat, meth: string, err: string, args: Option<string>, spawned: bool,
                     service: Service, answer: Answer, body: Body)

  /** Progress of serveCodec; in GotHeader and Answering it works on the last request. */
  datatype Serve = Reading | GotHeader | Answering | Draining | Closed

  /** One cc.Write of a response. */
  datatype Attempt = Attempt(req: nat, num: nat, meth: string, err: string, body: Body)

  /** `active` are the handlers counted by the wait group. */
  datatype Server = Server(methods: set<string>, timed: bool, serve: Serve, reqs: seq<Req>,
                           lock: Option<nat>, active: set<nat>, wg: nat, attempts: seq<Attempt>)

  datatype ServerStep =
    | ReadHead(garbled: Token)
    | ReadHeadFail
    | UnknownMethod(text: string)
    | ReadArgs(garbled': string)
    | ReadArgsFail(text: string)
    | ServiceReturn(r: nat, outcome: Outcome)
    | TakeResult(r: nat)
    | Timeout(r: nat, text: string)
    | Lock(r: nat)
    | WriteHead(r: nat, delivered: nat, ok: bool)
    | WriteBody(r: nat, delivered: nat, ok: bool)
    | Unlock(r: nat)
    | WgDone(r: nat)
    | Resume
    | Close

  function HeadOf(q: Req): Token { Head(q.num, q.meth, q.err) }

  predicate ServerEnabled(s: Server, req: Chan, resp: Chan, step: ServerStep) {
    match step
    case ReadHead(garbled) => s.serve.Reading? && req.pos < |req.log| && garbled.Head?
    case ReadHeadFail => s.serve.Reading?
    case UnknownMethod(text) =>
      s.serve.GotHeader? && s.reqs != [] && s.reqs[|s.reqs| - 1].meth !in s.methods && text != ""
    case ReadArgs(_) =>
      s.serve.GotHeader? && s.reqs != [] && s.reqs[|s.reqs| - 1].meth in s.methods && req.pos < |req.log|
    case ReadArgsFail(text) =>
      && s.serve.GotHeader? && s.reqs != [] && s.reqs[|s.reqs| - 1].meth in s.methods && text != ""
      && (req.pos < |req.log| || req.broken)
    case ServiceReturn(r, _) => r < |s.reqs| && s.reqs[r].service.Calling?
    case TakeResult(r) => r < |s.reqs| && s.reqs[r].service.Called? && s.reqs[r].answer.Undecided?
    case Timeout(r, text) => s.timed && r < |s.reqs| && s.reqs[r].spawned && s.reqs[r].answer.Undecided? && text != ""
    case Lock(r) => r < |s.reqs| && s.reqs[r].answer.Ready? && s.lock.None?
    case WriteHead(r, delivered, _) =>
      r < |s.reqs| && s.reqs[r].answer.Locked? && CanPush(resp, [HeadOf(s.reqs[r])], delivered)
    case WriteBody(r, delivered, _) =>
      r < |s.reqs| && s.reqs[r].answer.HeadOut? && CanPush(resp, [Data(s.reqs[r].body)], delivered)
    case Unlock(r) => r < |s.reqs| && s.reqs[r].answer.Written?
    case WgDone(r) => r < |s.reqs| && s.reqs[r].answer.Answered? && r in s.active && s.wg > 0
    case Resume => s.serve.Answering? && s.reqs != [] && s.reqs[|s.reqs| - 1].answer.Answered?
    case Close => s.serve.Draining? && s.wg == 0
  }

  function Set(s: Server, r: nat, q: Req): Server
    requires r < |s.reqs|
  {
    s.(reqs := s.reqs[r := q])
  }

  /** handleCallError: a nil error sends the reply, an error its text and the placeholder. */
  function Decide(q: Req, outcome: Outcome): Req {
    match outcome
    case Ok(reply) => q.(body := Payload(reply), answer := Ready)
    case Err(text) => q.(err := text, body := Invalid, answer := Ready)
  }

  datatype ServerResult = ServerResult(server: Server, req: Chan, resp: Chan)

  function ServerDo(s: Server, req: Chan, resp: Chan, step: ServerStep): ServerResult
    requires ServerEnabled(s, req, resp, step)
  {
    var last := |s.reqs| - 1;
    match step
    case ReadHead(garbled) =>
      var h := if req.log[req.pos].Head? then req.log[req.pos] else garbled;
      var q := Req(h.num, h.meth, h.err, None, false, NotCalled, Undecided, Invalid);
      ServerResult(s.(reqs := s.reqs + [q], serve := GotHeader), Advance(req), resp)
    case ReadHeadFail => ServerResult(s.(serve := Draining), req, resp)
    case UnknownMethod(text) =>
      ServerResult(Set(s, last, s.reqs[last].(err := text, answer := Ready)).(serve := Answering), req, resp)
    case ReadArgs(garbled) =>
      var token := req.log[req.pos];
      var args := if token.Data? && token.body.Payload? then token.body.data else garbled;
      var q := s.reqs[last].(args := Some(args), spawned := true, service := Calling);
      ServerResult(Set(s, last, q).(serve := Reading, active := s.active + {last}, wg := s.wg + 1), Advance(req), resp)
    case ReadArgsFail(text) =>
      ServerResult(Set(s, last, s.reqs[last].(err := text, answer := Ready)).(serve := Answering),
                   if req.pos < |req.log| then Advance(req) else req, resp)
    case ServiceReturn(r, outcome) => ServerResult(Set(s, r, s.reqs[r].(service := Called(outcome))), req, resp)
    case TakeResult(r) => ServerResult(Set(s, r, Decide(s.reqs[r], s.reqs[r].service.outcome)), req, resp)
    case Timeout(r, text) => ServerResult(Set(s, r, Decide(s.reqs[r], Err(text))), req, resp)
    case Lock(r) =>
      var q := s.reqs[r];
      ServerResult(Set(s, r, q.(answer := Locked))
                   .(lock := Some(r), attempts := s.attempts + [Attempt(r, q.num, q.meth, q.err, q.body)]), req, resp)
    case WriteHead(r, delivered, ok) =>
      ServerResult(Set(s, r, s.reqs[r].(answer := if ok then HeadOut else Written)), req,
                   Push(resp, [HeadOf(s.reqs[r])], delivered, ok))
    case WriteBody(r, delivered, ok) =>
      ServerResult(Set(s, r, s.reqs[r].(answer := Written)), req,
                   Push(resp, [Data(s.reqs[r].body)], delivered, ok))
    case Unlock(r) => ServerResult(Set(s, r, s.reqs[r].(answer := Answered)).(lock := None), req, resp)
    case WgDone(r) => ServerResult(s.(active := s.active - {r}, wg := s.wg - 1), req, resp)
    case Resume => ServerResult(s.(serve := Reading), req, resp)
    case Close => ServerResult(s.(serve := Closed), req, resp.(broken := true))
  }

  // ------------------------------------------------------------- the session

  datatype State = State(client: Client, req: Chan, server: Server, resp: Chan)

  /** Besides client and server, the network may cut a stream anywhere after what was
      read. */
  datatype Step = C(c: ClientStep) | S(s: ServerStep) | CutReq(at: nat) | CutResp(at: nat)

  predicate Cuttable(ch: Chan, at: nat) { ch.pos <= at <= |ch.log| }

  function Cut(ch: Chan, at: nat): Chan
    requires Cuttable(ch, at)
  {
    Chan(ch.log[..at], ch.pos, true)
  }

  predicate Enabled(s: State, step: Step) {
    match step
    case C(c) => ClientEnabled(s.client, s.req, s.resp, c)
    case S(v) => ServerEnabled(s.server, s.req, s.resp, v)
    case CutReq(at) => Cuttable(s.req, at)
    case CutResp(at) => Cuttable(s.resp, at)
  }

  function Do(s: State, step: Step): State
    requires Enabled(s, step)
  {
    match step
    case C(c) => var r := ClientDo(s.client, s.req, s.resp, c); State(r.client, r.req, s.server, r.resp)
    case S(v) => var r := ServerDo(s.server, s.req, s.resp, v); State(s.client, r.req, r.server, r.resp)
    case CutReq(at) => s.(req := Cut(s.req, at))
    case CutResp(at) => s.(resp := Cut(s.resp, at))
  }

  /** A fresh connection to a server with the given methods and timeout setting. */
  function Init(methods: set<string>, timed: bool): State {
    State(Client(1, map[], map[], map[], {}, AtLoop), Chan([], 0, false),
          Server(methods, timed, Reading, [], None, {}, 0, []), Chan([], 0, false))
  }

  /** Step k of a path leads from state k to state k + 1. */
  ghost predicate StepAt(steps: seq<Step>, states: seq<State>, k: nat)
    requires |states| == |steps| + 1 && k < |steps|
  {
    Enabled(states[k], steps[k]) && states[k + 1] == Do(states[k], steps[k])
  }

  ghost predicate IsRun(steps: seq<Step>, states: seq<State>, methods: set<string>, timed: bool) {
    && |states| == |steps| + 1 && states[0] == Init(methods, timed)
    && forall k :: 0 <= k < |steps| ==> StepAt(steps, states, k)
  }

  ghost predicate Reachable(s: State) {
    exists steps, states, methods, timed :: IsRun(steps, states, methods, timed) && states[|steps|] == s
  }

  lemma InitReachable(methods: set<string>, timed: bool)
    ensures Reachable(Init(methods, timed))
  {
    assert IsRun([], [Init(methods, timed)], methods, timed);
  }

  lemma ReachableStep(s: State, step: Step)
    requires Reachable(s) && Enabled(s, step)
    ensures Reachable(Do(s, step))
  {
    var steps, states, methods, timed :| IsRun(steps, states, methods, timed) && states[|steps|] == s;
    var longer, further := steps + [step], states + [Do(s, step)];
    forall k | 0 <= k < |longer| ensures StepAt(longer, further, k) {
      assert k < |steps| ==> StepAt(steps, states, k);
    }
    assert IsRun(longer, further, methods, timed);
  }
}
