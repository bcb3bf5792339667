/**
 The driver of the client: the argument check, then the state machine run
 over a finite list of responses, one response per request, stopping at the
 first fatal outcome. The log holds one exchange per response consumed: the
 request that was issued and the lines reported on its response.
 */
module Driver {
  import opened Wrappers
  import opened Protocol
  import opened LongPoll

  /** One request and the lines reported when its response arrived. */
  datatype Exchange = Exchange(request: Request, reports: seq<Report>)

  /** How a finite run ends: still running in some state once every
      response is consumed, or exited with status 1 after reporting `fatal`
      (the last exchange of the log is the request that failed). */
  datatype RunResult =
    | Running(state: State, log: seq<Exchange>)
    | Exited(log: seq<Exchange>, fatal: Report)

  /** A run whose log is preceded by one earlier exchange. */
  function Prepend(x: Exchange, res: RunResult): RunResult
  {
    match res
    case Running(st, l) => Running(st, [x] + l)
    case Exited(l, e) => Exited([x] + l, e)
  }

  /** A transition function of the client; `Step` is the one it has. The
      driver is written for any transition function and then instantiated
      with `Step` (`Run`, `Then`), so that the inductions over traces
      (`RunWithAppend`) never unfold the body of `Step`. */
  type Stepper = (State, Response) -> Outcome

  /** The run of a transition function from state `st` on the responses
      `rs`, the i-th response answering the i-th request. */
  function RunWith(step: Stepper, st: State, rs: seq<Response>): RunResult
    decreases |rs|
  {
    if rs == [] then Running(st, [])
    else
      match step(st, rs[0])
      case Fatal(e) => Exited([Exchange(RequestOf(st), [])], e)
      case Continue(next, reps) => Prepend(Exchange(RequestOf(st), reps), RunWith(step, next, rs[1..]))
  }

  /** The client run from state `st` on the responses `rs`. */
  function Run(st: State, rs: seq<Response>): RunResult
  {
    RunWith(Step, st, rs)
  }

  /** Every response answers exactly one request: a run that is still going
      has one exchange per response, a run that exited has at most that many,
      and it exited on an error line. */
  lemma {:induction false} RunShape(st: State, rs: seq<Response>)
    ensures Run(st, rs).Running? ==> |Run(st, rs).log| == |rs|
    ensures Run(st, rs).Exited? ==> 0 < |Run(st, rs).log| <= |rs| && IsError(Run(st, rs).fatal)
    decreases |rs|
  {
    if rs != [] {
      RunStep(st, rs);
      var o := Step(st, rs[0]);
      if o.Continue? {
        RunShape(o.next, rs[1..]);
      }
    }
  }

  /** One step of a run, unfolded. */
  lemma RunStep(st: State, rs: seq<Response>)
    requires rs != []
    ensures var o := Step(st, rs[0]);
      Run(st, rs) ==
        if o.Fatal? then Exited([Exchange(RequestOf(st), [])], o.report)
        else Prepend(Exchange(RequestOf(st), o.reports), Run(o.next, rs[1..]))
  {
  }

  /** The whole program: `argv[2]` must be a non-empty token, then the
      client starts by resolving the long-poll endpoint. The token error is
      the outcome exactly when the token is absent or empty (no run of the
      client ends that way with an empty log), and a started client always
      issues the discovery request first. */
  function Program(token: Option<string>, rs: seq<Response>): (res: RunResult)
    ensures res == Exited([], TokenMissing) <==> (token.None? || token.value == "")
    ensures token.Some? && token.value != "" && rs != [] ==> |res.log| > 0 && res.log[0].request == Discover
    ensures token.Some? && token.value != "" ==> res == Run(Resolving, rs)
  {
    if token.None? || token.value == "" then Exited([], TokenMissing)
    else
      RunShape(Resolving, rs);
      if rs != [] then RunStep(Resolving, rs); Run(Resolving, rs)
      else Run(Resolving, rs)
  }

  /** Continue a run of `step` on further responses, if it has not exited. */
  function ThenWith(step: Stepper, res: RunResult, more: seq<Response>): RunResult
  {
    match res
    case Running(st, l) =>
      (match RunWith(step, st, more)
       case Running(st', l') => Running(st', l + l')
       case Exited(l', e) => Exited(l + l', e))
    case Exited(l, e) => Exited(l, e)
  }

  /** Continue a client run on further responses, if it has not exited. */
  function Then(res: RunResult, more: seq<Response>): RunResult
  {
    ThenWith(Step, res, more)
  }

  /** Running on `a + b` is running on `a`, then on `b` from where `a` left off. */
  lemma RunAppend(st: State, a: seq<Response>, b: seq<Response>)
    ensures Run(st, a + b) == Then(Run(st, a), b)
  {
    RunWithAppend(Step, st, a, b);
  }

  lemma {:induction false} RunWithAppend(step: Stepper, st: State, a: seq<Response>, b: seq<Response>)
    ensures RunWith(step, st, a + b) == ThenWith(step, RunWith(step, st, a), b)
    decreases |a|
  {
    if a == [] {
      assert a + b == b;
      match RunWith(step, st, b)
      case Running(_, l) => assert [] + l == l;
      case Exited(l, _) => assert [] + l == l;
    } else {
      var ab := a + b;
      assert ab[0] == a[0];
      assert ab[1..] == a[1..] + b;
      var o := step(st, a[0]);
      if o.Continue? {
        RunWithAppend(step, o.next, a[1..], b);
        var x := [Exchange(RequestOf(st), o.reports)];
        match RunWith(step, o.next, a[1..])
        case Running(s, l) =>
          var l' := RunWith(step, s, b).log;
          assert x + (l + l') == (x + l) + l';
        case Exited(_, _) =>
      }
    }
  }
}
