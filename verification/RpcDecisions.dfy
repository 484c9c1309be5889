/** Over whole runs: which step of the server decides each response, and what the
    response then carries. */
module RpcDecisions {
  import opened Wrappers
  import opened RpcProtocol
  import L = RpcServerLoop

  /** The steps that decide the response to request r: its service call's result was taken,
      its timeout fired, or it was refused when it was read. */
  predicate Decides(v: Server, step: Step, r: nat) {
    match step
    case S(TakeResult(q)) => q == r
    case S(Timeout(q, _)) => q == r
    case S(UnknownMethod(_)) => r + 1 == |v.reqs|
    case S(ReadArgsFail(_)) => r + 1 == |v.reqs|
    case _ => false
  }

  /** What a response carries when the given step decided it: the reply of a service call
      that succeeded, with the error field as it was read, and otherwise an error's text
      with the placeholder. */
  predicate Carries(err: string, body: Body, q: Req, step: Step) {
    match step
    case S(TakeResult(_)) =>
      q.service.Called? && (match q.service.outcome
                            case Ok(reply) => err == q.err && body == Payload(reply)
                            case Err(text) => err == text && body == Invalid)
    case S(Timeout(_, text)) => err == text && body == Invalid
    case S(UnknownMethod(text)) => err == text && body == Invalid && q.service.NotCalled?
    case S(ReadArgsFail(text)) => err == text && body == Invalid && q.service.NotCalled?
    case _ => false
  }

  /** Step k of a run decided request r, and what the request carries now is what that
      step makes of it. */
  ghost predicate DecidedBy(steps: seq<Step>, states: seq<State>, k: nat, r: nat, q: Req)
    requires |states| == |steps| + 1 && k < |steps|
  {
    && Decides(states[k].server, steps[k], r) && r < |states[k].server.reqs|
    && Carries(q.err, q.body, states[k].server.reqs[r], steps[k])
    && q.spawned == states[k].server.reqs[r].spawned
  }

  /** A deciding step, on the request it decides. */
  lemma DecidingStep(s: State, step: Step, r: nat)
    requires L.Inv(s.server) && Enabled(s, step) && Decides(s.server, step, r)
    ensures r < |s.server.reqs| && r < |Do(s, step).server.reqs|
    ensures s.server.reqs[r].answer.Undecided? && !Do(s, step).server.reqs[r].answer.Undecided?
    ensures var q := Do(s, step).server.reqs[r];
            Carries(q.err, q.body, s.server.reqs[r], step) && q.spawned == s.server.reqs[r].spawned
  {
    assert L.ReqOk(s.server, |s.server.reqs| - 1);
  }

  /** Every other step. */
  lemma OtherStep(s: State, step: Step, r: nat)
    requires L.Inv(s.server) && Enabled(s, step) && !Decides(s.server, step, r)
    requires r < |Do(s, step).server.reqs| && !Do(s, step).server.reqs[r].answer.Undecided?
    ensures r < |s.server.reqs| && !s.server.reqs[r].answer.Undecided?
    ensures Do(s, step).server.reqs[r].err == s.server.reqs[r].err
    ensures Do(s, step).server.reqs[r].body == s.server.reqs[r].body
    ensures Do(s, step).server.reqs[r].spawned == s.server.reqs[r].spawned
  {
    if step.S? {
      if r < |s.server.reqs| {
        OtherServerStep(s.server, s.req, s.resp, step.s, r);
        L.Stable(s.server, s.req, s.resp, step.s, r);
      } else {
        L.NewIsUndecided(s.server, s.req, s.resp, step.s, r);
      }
    }
  }

  lemma OtherServerStep(v: Server, req: Chan, resp: Chan, step: ServerStep, r: nat)
    requires ServerEnabled(v, req, resp, step) && !Decides(v, S(step), r) && r < |v.reqs|
    requires r < |ServerDo(v, req, resp, step).server.reqs|
    ensures ServerDo(v, req, resp, step).server.reqs[r].answer.Undecided? <==> v.reqs[r].answer.Undecided?
  {
  }

  /** A response once decided stays decided, whatever the server does next. */
  lemma {:induction false} StaysDecided(steps: seq<Step>, states: seq<State>, methods: set<string>, timed: bool,
                                        m: nat, n: nat, r: nat)
    requires IsRun(steps, states, methods, timed) && m <= n <= |steps|
    requires r < |states[m].server.reqs| && !states[m].server.reqs[r].answer.Undecided?
    ensures r < |states[n].server.reqs| && !states[n].server.reqs[r].answer.Undecided?
    ensures states[n].server.reqs[r].err == states[m].server.reqs[r].err
    ensures states[n].server.reqs[r].body == states[m].server.reqs[r].body
  {
    if m < n {
      StaysDecided(steps, states, methods, timed, m, n - 1, r);
      L.RunInv(steps, states, methods, timed, n - 1);
    assert StepAt(steps, states, n - 1);
      DecidedStep(states[n - 1], steps[n - 1], r);
    }
  }

  lemma DecidedStep(s: State, step: Step, r: nat)
    requires L.Inv(s.server) && Enabled(s, step)
    requires r < |s.server.reqs| && !s.server.reqs[r].answer.Undecided?
    ensures r < |Do(s, step).server.reqs| && !Do(s, step).server.reqs[r].answer.Undecided?
    ensures Do(s, step).server.reqs[r].err == s.server.reqs[r].err
    ensures Do(s, step).server.reqs[r].body == s.server.reqs[r].body
  {
    if Decides(s.server, step, r) {
      DecidingStep(s, step, r);
    } else if step.S? {
      L.Stable(s.server, s.req, s.resp, step.s, r);
      OtherServerStep(s.server, s.req, s.resp, step.s, r);
    }
  }

  /** Every decided response was decided by a step of the run. */
  lemma {:induction false} DecisionOf(steps: seq<Step>, states: seq<State>, methods: set<string>, timed: bool,
                                      n: nat, r: nat) returns (k: nat)
    requires IsRun(steps, states, methods, timed) && n <= |steps|
    requires r < |states[n].server.reqs| && !states[n].server.reqs[r].answer.Undecided?
    ensures k < n && DecidedBy(steps, states, k, r, states[n].server.reqs[r])
  {
    assert n > 0;
    L.RunInv(steps, states, methods, timed, n - 1);
    assert StepAt(steps, states, n - 1);
    if Decides(states[n - 1].server, steps[n - 1], r) {
      DecidingStep(states[n - 1], steps[n - 1], r);
      k := n - 1;
    } else {
      OtherStep(states[n - 1], steps[n - 1], r);
      k := DecisionOf(steps, states, methods, timed, n - 1, r);
    }
  }

  /** No request is decided twice, so a result taken and a timeout exclude each other. */
  lemma DecidedOnce(steps: seq<Step>, states: seq<State>, methods: set<string>, timed: bool, j: nat, k: nat, r: nat)
    requires IsRun(steps, states, methods, timed) && j < |steps| && k < |steps|
    requires Decides(states[j].server, steps[j], r) && Decides(states[k].server, steps[k], r)
    ensures j == k
  {
    if j != k {
      var m, n := if j < k then j else k, if j < k then k else j;
      L.RunInv(steps, states, methods, timed, m);
      assert StepAt(steps, states, m) && StepAt(steps, states, n);
      L.RunInv(steps, states, methods, timed, n);
      DecidingStep(states[m], steps[m], r);
      DecidingStep(states[n], steps[n], r);
      StaysDecided(steps, states, methods, timed, m + 1, n, r);
    }
  }

  /** In every run each response written was decided by exactly one step, and carries what
      that step stands for: in particular, when the service call returned in time, its
      reply or its error, and an error only for such a return, a timeout, an unknown
      method or unreadable arguments, with that text. */
  lemma ResponseIs(steps: seq<Step>, states: seq<State>, methods: set<string>, timed: bool, n: nat, i: nat)
    returns (k: nat)
    requires IsRun(steps, states, methods, timed) && n <= |steps| && i < |states[n].server.attempts|
    ensures var a := states[n].server.attempts[i];
            && k < n && a.req < |states[n].server.reqs|
            && Decides(states[k].server, steps[k], a.req) && a.req < |states[k].server.reqs|
            && Carries(a.err, a.body, states[k].server.reqs[a.req], steps[k])
            && states[k].server.reqs[a.req].spawned == states[n].server.reqs[a.req].spawned
            && forall j :: 0 <= j < |steps| && j != k ==> !Decides(states[j].server, steps[j], a.req)
  {
    var v := states[n].server;
    var a := v.attempts[i];
    L.RunInv(steps, states, methods, timed, n);
    assert L.AttemptOk(v, a);
    k := DecisionOf(steps, states, methods, timed, n, a.req);
    forall j | 0 <= j < |steps| && j != k ensures !Decides(states[j].server, steps[j], a.req) {
      if Decides(states[j].server, steps[j], a.req) {
        DecidedOnce(steps, states, methods, timed, j, k, a.req);
      }
    }
  }

  // --------------------------------------------------------- service outcomes

  /** The service call of request r returns `outcome`. */
  predicate Returns(step: Step, r: nat, outcome: Outcome) { step == S(ServiceReturn(r, outcome)) }

  lemma ServiceStep(s: State, step: Step, r: nat)
    requires L.Inv(s.server) && Enabled(s, step) && r < |Do(s, step).server.reqs|
    ensures Do(s, step).server.reqs[r].service.Called? ==>
              || Returns(step, r, Do(s, step).server.reqs[r].service.outcome)
              || (r < |s.server.reqs| && Do(s, step).server.reqs[r].service == s.server.reqs[r].service)
    ensures r < |s.server.reqs| && s.server.reqs[r].service.Called? ==>
              Do(s, step).server.reqs[r].service == s.server.reqs[r].service
  {
    if step.S? {
      ServiceServerStep(s.server, s.req, s.resp, step.s, r);
    }
  }

  lemma ServiceServerStep(v: Server, req: Chan, resp: Chan, step: ServerStep, r: nat)
    requires L.Inv(v) && ServerEnabled(v, req, resp, step) && r < |ServerDo(v, req, resp, step).server.reqs|
    ensures var d := ServerDo(v, req, resp, step).server;
            && (d.reqs[r].service.Called? ==>
                  || (step.ServiceReturn? && step.r == r && d.reqs[r].service == Called(step.outcome))
                  || (r < |v.reqs| && d.reqs[r].service == v.reqs[r].service))
            && (r < |v.reqs| && v.reqs[r].service.Called? ==> d.reqs[r].service == v.reqs[r].service)
  {
    if r < |v.reqs| {
      assert L.ReqOk(v, r);
    }
  }

  /** The outcome recorded for a request is what its service call returned, at some step
      of the run. */
  lemma {:induction false} OutcomeIs(steps: seq<Step>, states: seq<State>, methods: set<string>, timed: bool,
                                     n: nat, r: nat) returns (k: nat)
    requires IsRun(steps, states, methods, timed) && n <= |steps|
    requires r < |states[n].server.reqs| && states[n].server.reqs[r].service.Called?
    ensures k < n && Returns(steps[k], r, states[n].server.reqs[r].service.outcome)
  {
    assert n > 0;
    L.RunInv(steps, states, methods, timed, n - 1);
    assert StepAt(steps, states, n - 1);
    ServiceStep(states[n - 1], steps[n - 1], r);
    if Returns(steps[n - 1], r, states[n].server.reqs[r].service.outcome) {
      k := n - 1;
    } else {
      k := OutcomeIs(steps, states, methods, timed, n - 1, r);
    }
  }

  /** Without a handle timeout no step is a timeout. */
  lemma {:induction false} TimedIs(steps: seq<Step>, states: seq<State>, methods: set<string>, timed: bool, n: nat)
    requires IsRun(steps, states, methods, timed) && n <= |steps|
    ensures states[n].server.timed == timed && states[n].server.methods == methods
  {
    if n > 0 {
      TimedIs(steps, states, methods, timed, n - 1);
      assert StepAt(steps, states, n - 1);
      SettingsStep(states[n - 1], steps[n - 1]);
    }
  }

  lemma SettingsStep(s: State, step: Step)
    requires Enabled(s, step)
    ensures Do(s, step).server.timed == s.server.timed && Do(s, step).server.methods == s.server.methods
  {
  }

  /** The response of a request that was handed to its service and did not time out before
      state n carries exactly what the service call returned: on a server without a handle
      timeout, and with one as long as it did not fire. */
  lemma InTimeResponse(steps: seq<Step>, states: seq<State>, methods: set<string>, timed: bool, n: nat, i: nat)
    returns (k: nat)
    requires IsRun(steps, states, methods, timed) && n <= |steps| && i < |states[n].server.attempts|
    requires states[n].server.attempts[i].req < |states[n].server.reqs|
    requires states[n].server.reqs[states[n].server.attempts[i].req].spawned
    requires !timed || forall j, text :: 0 <= j < n ==> steps[j] != S(Timeout(states[n].server.attempts[i].req, text))
    ensures var a := states[n].server.attempts[i];
            && k < n && steps[k].S? && steps[k].s.ServiceReturn? && steps[k].s.r == a.req
            && (match steps[k].s.outcome
                case Ok(reply) => a.body == Payload(reply)
                case Err(text) => a.err == text && a.body == Invalid)
  {
    var a := states[n].server.attempts[i];
    var d := ResponseIs(steps, states, methods, timed, n, i);
    TimedIs(steps, states, methods, timed, d);
    L.RunInv(steps, states, methods, timed, d);
    assert StepAt(steps, states, d);
    assert L.ReqOk(states[d].server, a.req);
    assert steps[d] == S(TakeResult(a.req));
    k := OutcomeIs(steps, states, methods, timed, d, a.req);
  }
}
