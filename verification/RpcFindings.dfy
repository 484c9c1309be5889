/** Runs of the protocol that show what it does not guarantee. */
module RpcFindings {
  import opened Wrappers
  import opened RpcProtocol
  import T = RpcClientTable

  /** A server with one method, with or without a handle timeout; call 0 has been sent,
      its service call returned `o`, and the response is on its way. */
  function Responded(timed: bool, o: Outcome): State {
    var err := if o.Err? then o.text else "";
    var body := if o.Ok? then Payload(o.reply) else Invalid;
    State(Client(2, map[1 := 0], map[0 := Call(1, "S.M", "x", false, SendReturned(false), 0, None, None, 0)],
                 map[1 := 0], {}, AtLoop),
          Chan([Head(1, "S.M", ""), Data(Payload("x"))], 2, false),
          Server({"S.M"}, timed, Reading, [Req(1, "S.M", err, Some("x"), true, Called(o), Written, body)],
                 Some(0), {0}, 1, [Attempt(0, 1, "S.M", err, body)]),
          Chan([Head(1, "S.M", err), Data(body)], 0, false))
  }

  function Requested(timed: bool): State {
    Responded(timed, Ok("")).(
      server := Server({"S.M"}, timed, Reading, [Req(1, "S.M", "", Some("x"), true, Calling, Undecided, Invalid)],
                       None, {0}, 1, []),
      resp := Chan([], 0, false))
  }

  /** The request has been written and not yet read. */
  function Posted(timed: bool): State {
    Requested(timed).(server := Init({"S.M"}, timed).server, req := Requested(timed).req.(pos := 0))
  }

  lemma PostedIsReachable(timed: bool)
    ensures Reachable(Posted(timed))
  {
    var s0 := Init({"S.M"}, timed);
    InitReachable({"S.M"}, timed);
    var s1 := Do(s0, C(Register(0, "S.M", "x", false)));
    ReachableStep(s0, C(Register(0, "S.M", "x", false)));
    ReachableStep(s1, C(Write(0, 2, true)));
    assert Do(s1, C(Write(0, 2, true))) == Posted(timed);
  }

  /** Its header has been read. */
  function Headed(timed: bool): State {
    var q := Req(1, "S.M", "", None, false, NotCalled, Undecided, Invalid);
    var p := Posted(timed);
    p.(server := p.server.(reqs := [q], serve := GotHeader), req := p.req.(pos := 1))
  }

  lemma HeadedIsReachable(timed: bool)
    ensures Reachable(Headed(timed))
  {
    PostedIsReachable(timed);
    var step := S(ReadHead(Head(0, "", "")));
    ReachableStep(Posted(timed), step);
    assert Do(Posted(timed), step) == Headed(timed);
  }

  lemma RequestedIsReachable(timed: bool)
    ensures Reachable(Requested(timed))
  {
    HeadedIsReachable(timed);
    ReachableStep(Headed(timed), S(ReadArgs("")));
    assert Do(Headed(timed), S(ReadArgs(""))).server.reqs == Requested(timed).server.reqs;
    assert Do(Headed(timed), S(ReadArgs(""))) == Requested(timed);
  }

  /** The response is decided and the sending mutex taken. */
  function Sending(timed: bool, o: Outcome): State {
    var err := if o.Err? then o.text else "";
    var body := if o.Ok? then Payload(o.reply) else Invalid;
    Requested(timed).(server := Server({"S.M"}, timed, Reading,
                                  [Req(1, "S.M", err, Some("x"), true, Called(o), Locked, body)],
                                  Some(0), {0}, 1, [Attempt(0, 1, "S.M", err, body)]))
  }

  /** The response is decided. */
  function Decided(timed: bool, o: Outcome): State {
    var v := Sending(timed, o).server;
    Sending(timed, o).(server := v.(reqs := [v.reqs[0].(answer := Ready)], lock := None, attempts := []))
  }

  lemma DecidedIsReachable(timed: bool, o: Outcome)
    ensures Reachable(Decided(timed, o))
  {
    RequestedIsReachable(timed);
    var s4 := Requested(timed);
    var s5 := Do(s4, S(ServiceReturn(0, o)));
    ReachableStep(s4, S(ServiceReturn(0, o)));
    ReachableStep(s5, S(TakeResult(0)));
    assert Do(s5, S(TakeResult(0))) == Decided(timed, o);
  }

  lemma SendingIsReachable(timed: bool, o: Outcome)
    ensures Reachable(Sending(timed, o))
  {
    DecidedIsReachable(timed, o);
    ReachableStep(Decided(timed, o), S(Lock(0)));
    assert Do(Decided(timed, o), S(Lock(0))) == Sending(timed, o);
  }

  lemma RespondedIsReachable(timed: bool, o: Outcome)
    ensures Reachable(Responded(timed, o))
  {
    SendingIsReachable(timed, o);
    var s7 := Sending(timed, o);
    var s8 := Do(s7, S(WriteHead(0, 1, true)));
    ReachableStep(s7, S(WriteHead(0, 1, true)));
    ReachableStep(s8, S(WriteBody(0, 1, true)));
    var head, data := HeadOf(s7.server.reqs[0]), Data(s7.server.reqs[0].body);
    assert [head][..1] == [head] && [data][..1] == [data];
    assert s8.resp.log == [head];
    assert [head] + [data] == [head, data];
    assert Do(s8, S(WriteBody(0, 1, true))) == Responded(timed, o);
  }

  /** The response of outcome o, when it is not an error on the wire, is matched. */
  lemma MatchedIsReachable(timed: bool, o: Outcome) returns (s: State)
    requires o.Err? ==> o.text == ""
    ensures Reachable(s) && s.server == Responded(timed, o).server && s.resp == Responded(timed, o).resp.(pos := 1)
    ensures s.client.recv == Taken(0, Head(1, "S.M", ""))
    ensures s.client.calls == map[0 := Responded(timed, o).client.calls[0].(taken := 1)]
  {
    RespondedIsReachable(timed, o);
    var s1 := Responded(timed, o);
    var s2 := Do(s1, C(RecvHead));
    ReachableStep(s1, C(RecvHead));
    s := Do(s2, C(RecvTake));
    ReachableStep(s2, C(RecvTake));
  }

  /** With the same steps, and with or without a handle timeout, the caller gets the reply
      that the method returned, and no error. */
  lemma ReplyArrives(timed: bool, reply: string) returns (s: State)
    ensures Reachable(s) && s.server.timed == timed
    ensures s.server.reqs[..] != [] && s.server.reqs[0].service == Called(Ok(reply))
    ensures 0 in s.client.calls && s.client.calls[0].signals == 1
    ensures s.client.calls[0].error == None && s.client.calls[0].reply == Some(Payload(reply))
  {
    var s3 := MatchedIsReachable(timed, Ok(reply));
    s := Do(s3, C(RecvReply(None)));
    ReachableStep(s3, C(RecvReply(None)));
  }

  /** A method that returns an error with an empty text is reported as a success, with
      the placeholder in place of a reply and no error. */
  lemma EmptyErrorLooksLikeSuccess() returns (s: State)
    ensures Reachable(s)
    ensures s.server.reqs[..] != [] && s.server.reqs[0].service == Called(Err(""))
    ensures 0 in s.client.calls && s.client.calls[0].signals == 1
    ensures s.client.calls[0].error == None && s.client.calls[0].reply == Some(Invalid)
  {
    var s3 := MatchedIsReachable(false, Err(""));
    s := Do(s3, C(RecvReply(None)));
    ReachableStep(s3, C(RecvReply(None)));
  }

  /** Call 0 was cancelled and call 1 registered before the response was read. */
  function Crossed(): State {
    Responded(false, Ok("y")).(client :=
      Client(3, map[2 := 1],
             map[0 := Call(1, "S.M", "x", false, SendReturned(false), 1, None, None, 0),
                 1 := Call(2, "S.M", "z", false, Registered, 0, None, None, 0)],
             map[1 := 0, 2 := 1], {}, AtLoop))
  }

  lemma CrossedIsReachable()
    ensures Reachable(Crossed())
  {
    RespondedIsReachable(false, Ok("y"));
    var s1 := Responded(false, Ok("y"));
    var s2 := Do(s1, C(Cancel(0)));
    ReachableStep(s1, C(Cancel(0)));
    ReachableStep(s2, C(Register(1, "S.M", "z", false)));
    assert Do(s2, C(Register(1, "S.M", "z", false))) == Crossed();
  }

  /** The receive loop after that response, about to run terminateCalls. */
  lemma CrossedEnds() returns (s: State)
    ensures Reachable(s) && s.client == Crossed().client.(recv := Ending(None))
  {
    CrossedIsReachable();
    var s3 := Crossed();
    var s4 := Do(s3, C(RecvHead));
    ReachableStep(s3, C(RecvHead));
    var s5 := Do(s4, C(RecvTake));
    ReachableStep(s4, C(RecvTake));
    s := Do(s5, C(RecvMissing(None)));
    ReachableStep(s5, C(RecvMissing(None)));
  }

  /** A response to a cancelled call ends the receive loop with a nil error, and an
      unrelated pending call then finishes with neither error nor reply. */
  lemma NilErrorWithoutReply() returns (s: State)
    ensures Reachable(s)
    ensures 1 in s.client.calls && s.client.calls[1].signals == 1
    ensures s.client.calls[1].error == None && s.client.calls[1].reply == None
  {
    var s6 := CrossedEnds();
    T.TerminateFinishes(s6, 1);
    ReachableStep(s6, C(Terminate));
    s := Do(s6, C(Terminate));
  }

  /** The response to call 0 carries an error; call 1 was registered before it was read. */
  function Failing(): State {
    Responded(false, Err("boom")).(client :=
      Client(3, map[1 := 0, 2 := 1],
             map[0 := Call(1, "S.M", "x", false, SendReturned(false), 0, None, None, 0),
                 1 := Call(2, "S.M", "z", false, Registered, 0, None, None, 0)],
             map[1 := 0, 2 := 1], {}, AtLoop))
  }

  lemma FailingIsReachable()
    ensures Reachable(Failing())
  {
    RespondedIsReachable(false, Err("boom"));
    var s0 := Responded(false, Err("boom"));
    ReachableStep(s0, C(Register(1, "S.M", "z", false)));
    assert Do(s0, C(Register(1, "S.M", "z", false))) == Failing();
  }

  /** The error response has been matched with call 0. */
  lemma FailingTaken() returns (s: State)
    ensures Reachable(s) && s.resp == Failing().resp.(pos := 1)
    ensures s.client == Failing().client.(
              pending := map[2 := 1], recv := Taken(0, Head(1, "S.M", "boom")),
              calls := Failing().client.calls[0 := Failing().client.calls[0].(taken := 1)])
  {
    FailingIsReachable();
    var s1 := Failing();
    var s2 := Do(s1, C(RecvHead));
    ReachableStep(s1, C(RecvHead));
    s := Do(s2, C(RecvTake));
    ReachableStep(s2, C(RecvTake));
    assert s2.client.pending - {1} == map[2 := 1];
  }

  /** The receive loop after that response, about to run terminateCalls. */
  lemma FailingEnds() returns (s: State)
    ensures Reachable(s) && s.client.recv == Ending(None) && s.client.pending == map[2 := 1]
    ensures 0 in s.client.calls && s.client.calls[0].error == Some("boom") && s.client.calls[0].num == 1
    ensures 1 in s.client.calls && s.client.calls[1].num == 2
  {
    var s3 := FailingTaken();
    s := Do(s3, C(RecvError(None)));
    ReachableStep(s3, C(RecvError(None)));
  }

  /** An ordinary error response has the same effect, without any cancellation: the call
      it answers holds the error, and an unrelated one finishes with nothing. */
  lemma ErrorResponseSilencesOthers() returns (s: State)
    ensures Reachable(s)
    ensures 0 in s.client.calls && s.client.calls[0].error == Some("boom")
    ensures 1 in s.client.calls && s.client.calls[1].signals == 1
    ensures s.client.calls[1].error == None && s.client.calls[1].reply == None
  {
    var s4 := FailingEnds();
    T.TerminateFinishes(s4, 0);
    T.TerminateFinishes(s4, 1);
    ReachableStep(s4, C(Terminate));
    s := Do(s4, C(Terminate));
    T.SilentlyFinishedIff(s, 1);
    T.SignalledTwiceIff(s, 1);
    assert 0 in s4.client.pending.Values <==> exists n :: n in s4.client.pending && s4.client.pending[n] == 0;
  }

  /** Call 0 is registered, not yet written, and the receive loop is about to end. */
  lemma EndingBeforeWrite(room: bool) returns (s: State)
    ensures Reachable(s) && s.client.calls == map[0 := Call(1, "S.M", "x", room, Registered, 0, None, None, 0)]
    ensures s.client.pending == map[1 := 0] && s.req == Chan([], 0, false) && s.client.recv == Ending(Some("EOF"))
  {
    var s0 := Init({}, false);
    InitReachable({}, false);
    var s1 := Do(s0, C(Register(0, "S.M", "x", room)));
    ReachableStep(s0, C(Register(0, "S.M", "x", room)));
    s := Do(s1, C(RecvFail("EOF")));
    ReachableStep(s1, C(RecvFail("EOF")));
  }

  lemma EndedBeforeWrite(room: bool) returns (s: State)
    ensures Reachable(s) && s.client.calls == map[0 := Call(1, "S.M", "x", room, Registered, 0, None, Some("EOF"), 1)]
    ensures s.client.pending == map[1 := 0] && s.req == Chan([], 0, false)
  {
    var s2 := EndingBeforeWrite(room);
    s := Do(s2, C(Terminate));
    ReachableStep(s2, C(Terminate));
    assert s2.client.pending[1] == 0;
    assert 0 in s2.client.pending.Values;
  }

  /** terminateCalls leaves its calls in the table, so a write that fails afterwards calls
      done() on its call a second time. */
  lemma SecondDone(room: bool) returns (s: State)
    ensures Reachable(s) && 0 in s.client.calls
    ensures s.client.calls[0].signals == if room then 2 else 1
    ensures s.client.calls[0].sending == if room then SendReturned(true) else Blocked
  {
    var s3 := EndedBeforeWrite(room);
    var s4 := Do(s3, C(Write(0, 0, false)));
    ReachableStep(s3, C(Write(0, 0, false)));
    ReachableStep(s4, C(TakeFailed(0, "closed")));
    s := Do(s4, C(TakeFailed(0, "closed")));
  }

  /** With a roomy Done channel the call is signalled twice. */
  lemma SignalledTwice() returns (s: State)
    ensures Reachable(s) && 0 in s.client.calls && s.client.calls[0].signals == 2
  {
    s := SecondDone(true);
  }

  /** In `Call`, whose channel holds one, `send` is stuck in done() and never returns,
      whatever happens next. */
  lemma CallHangs() returns (s: State)
    ensures Reachable(s) && T.BlockedIn(s.client, 0)
    ensures forall step :: Enabled(s, step) ==> T.BlockedIn(Do(s, step).client, 0)
  {
    s := SecondDone(false);
    forall step | Enabled(s, step) ensures T.BlockedIn(Do(s, step).client, 0) {
      T.BlockedStep(s, step, 0);
    }
  }

  /** On a server without methods, call 0 has been refused and the loop reads on, with the
      body of the request still in the stream. */
  function Refused(text: string): State {
    State(Client(2, map[1 := 0], map[0 := Call(1, "S.M", "x", false, SendReturned(false), 0, None, None, 0)],
                 map[1 := 0], {}, AtLoop),
          Chan([Head(1, "S.M", ""), Data(Payload("x"))], 1, false),
          Server({}, false, Reading, [Req(1, "S.M", text, None, false, NotCalled, Answered, Invalid)],
                 None, {}, 0, [Attempt(0, 1, "S.M", text, Invalid)]),
          Chan([Head(1, "S.M", text), Data(Invalid)], 0, false))
  }

  /** The refusal is about to be sent. */
  function Refusing(text: string): State {
    var s := Refused(text);
    s.(server := Server({}, false, Answering, [Req(1, "S.M", text, None, false, NotCalled, Ready, Invalid)],
                        None, {}, 0, []),
       resp := Chan([], 0, false))
  }

  /** Its request has not been read yet. */
  function Unread(): State {
    Refused("").(server := Init({}, false).server, req := Refused("").req.(pos := 0), resp := Chan([], 0, false))
  }

  lemma UnreadIsReachable()
    ensures Reachable(Unread())
  {
    var s0 := Init({}, false);
    InitReachable({}, false);
    var s1 := Do(s0, C(Register(0, "S.M", "x", false)));
    ReachableStep(s0, C(Register(0, "S.M", "x", false)));
    ReachableStep(s1, C(Write(0, 2, true)));
    assert Do(s1, C(Write(0, 2, true))) == Unread();
  }

  lemma RefusingIsReachable(text: string)
    requires text != ""
    ensures Reachable(Refusing(text))
  {
    UnreadIsReachable();
    var s2 := Unread();
    var s3 := Do(s2, S(ReadHead(Head(0, "", ""))));
    ReachableStep(s2, S(ReadHead(Head(0, "", ""))));
    ReachableStep(s3, S(UnknownMethod(text)));
    assert Do(s3, S(UnknownMethod(text))) == Refusing(text);
  }

  lemma RefusedIsReachable(text: string)
    requires text != ""
    ensures Reachable(Refused(text))
  {
    RefusingIsReachable(text);
    var s0 := Refusing(text);
    var s1 := Do(s0, S(Lock(0)));
    ReachableStep(s0, S(Lock(0)));
    var s2 := Do(s1, S(WriteHead(0, 1, true)));
    ReachableStep(s1, S(WriteHead(0, 1, true)));
    var s3 := Do(s2, S(WriteBody(0, 1, true)));
    ReachableStep(s2, S(WriteBody(0, 1, true)));
    var s4 := Do(s3, S(Unlock(0)));
    ReachableStep(s3, S(Unlock(0)));
    ReachableStep(s4, S(Resume));
    var head, data := Head(1, "S.M", text), Data(Invalid);
    assert [head][..1] == [head] && [data][..1] == [data];
    assert s3.resp.log == [head] + [data] == [head, data];
    assert Do(s4, S(Resume)) == Refused(text);
  }

  /** An unknown method leaves its body in the stream: the server reads that body as the
      next header, whatever it decodes to, and holds a request that no call has sent. */
  lemma UnknownMethodLeavesBody(text: string, num: nat, meth: string) returns (s: State)
    requires text != "" && num != 1
    ensures Reachable(s) && |s.server.reqs| == 2
    ensures s.server.reqs[1].num == num && s.server.reqs[1].meth == meth
    ensures forall id :: id in s.client.calls ==> s.client.calls[id].num != num
  {
    RefusedIsReachable(text);
    s := Do(Refused(text), S(ReadHead(Head(num, meth, ""))));
    ReachableStep(Refused(text), S(ReadHead(Head(num, meth, ""))));
  }
}
