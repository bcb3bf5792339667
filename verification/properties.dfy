/**
 Properties of the long-polling client: which failures are fatal, which
 entry the discovery step selects, when the cursor moves, and what a trace
 of responses does to the poll URL and the requests issued.
 */
module Properties {
  import opened Wrappers
  import opened JsValues
  import opened Protocol
  import opened LongPoll
  import opened Driver

  /** A discovery response the client accepts: status 200 and a non-empty
      `entries` list whose first element is an object. */
  predicate DiscoveryOk(r: Response)
  {
    && r.Reply? && r.status == 200 && r.body.Fields?
    && r.body.entries.Some? && |r.body.entries.value| > 0
    && r.body.entries.value[0].Record?
  }

  /** A cursor response the client accepts: its `next_stream_position` is truthy. */
  predicate CursorOk(r: Response)
  {
    r.Reply? && r.body.Fields? && Truthy(r.body.nextStreamPosition)
  }

  /** A long-poll response the client can read at all. */
  predicate PollReadable(r: Response)
  {
    r.Reply? && r.body.Fields?
  }

  /** A readable long-poll response that does not announce a change:
      `reconnect`, any other message, or none. */
  predicate Idle(r: Response)
  {
    PollReadable(r) && r.body.message != Str("new_change")
  }

  /** A readable long-poll response announcing a change. */
  predicate Change(r: Response)
  {
    PollReadable(r) && r.body.message == Str("new_change")
  }

  /** An event-list response whose success handler runs to its end: readable,
      and no `null` element in `entries`. */
  predicate FetchOk(r: Response)
  {
    && r.Reply? && r.body.Fields?
    && (r.body.entries.Some? ==>
          forall i :: 0 <= i < |r.body.entries.value| ==> r.body.entries.value[i].Record?)
  }

  /** Fatal and recoverable failures, per state: discovery and cursor
      failures are fatal, a long poll is fatal exactly when it cannot be
      read, and an event fetch is never fatal. */
  lemma FatalPartition(st: State, r: Response)
    ensures Step(st, r).Fatal? <==>
      match st
      case Resolving => !DiscoveryOk(r)
      case Initialising(_) => !CursorOk(r)
      case Waiting(_) => !PollReadable(r)
      case Fetching(_) => false
  {
  }

  /** Discovery selects the first entry's `url`; whatever follows it in the
      list has no influence on the step. */
  lemma FirstEntryWins(text: string, es: seq<Entry>, more: seq<Entry>, next: Value, msg: Value)
    requires |es| > 0 && es[0].Record?
    ensures Step(Resolving, Reply(200, text, Fields(Some(es + more), next, msg)))
         == Continue(Initialising(es[0].url), [RealtimeUrl(es[0].url)])
  {
  }

  /** A failed discovery ends the program after its one request, whatever
      responses would follow: no cursor read and no poll is issued. A non-200
      status is reported with its status text. */
  lemma DiscoveryFailureStops(token: string, rs: seq<Response>)
    requires token != "" && rs != [] && !DiscoveryOk(rs[0])
    ensures Program(Some(token), rs) ==
      Exited([Exchange(Discover, [])],
             EndpointUnavailable(if rs[0].Reply? && rs[0].status != 200 then Some(rs[0].statusText) else None))
  {
    RunStep(Resolving, rs);
  }

  /** Cursor initialisation keeps the resolved URL and takes the truthy
      `next_stream_position` as the cursor; anything else is fatal. */
  lemma CursorInit(url: Value, r: Response)
    ensures CursorOk(r) ==>
      Step(Initialising(url), r) ==
        Continue(Waiting(Session(url, r.body.nextStreamPosition)), [StreamPosition(r.body.nextStreamPosition)])
    ensures !CursorOk(r) ==> Step(Initialising(url), r) == Fatal(CursorUnavailable)
  {
  }

  /** An absent, null, false, zero or empty cursor is refused. */
  lemma FalsyCursorIsFatal(url: Value, status: int, text: string, es: Option<seq<Entry>>, msg: Value, v: Value)
    requires v in {Undefined, Null, Bool(false), Num(0), Str("")}
    ensures Step(Initialising(url), Reply(status, text, Fields(es, v, msg))) == Fatal(CursorUnavailable)
  {
  }

  /** A refused cursor ends the program right after the cursor request:
      the polling loop never starts. */
  lemma CursorFailureStops(url: Value, rs: seq<Response>)
    requires rs != [] && !CursorOk(rs[0])
    ensures Run(Initialising(url), rs) == Exited([Exchange(ReadCursor, [])], CursorUnavailable)
  {
    RunStep(Initialising(url), rs);
  }

  /** The session a successful setup establishes from the first two responses. */
  function SetupSession(rs: seq<Response>): Session
    requires |rs| >= 2 && DiscoveryOk(rs[0]) && CursorOk(rs[1])
  {
    Session(rs[0].body.entries.value[0].url, rs[1].body.nextStreamPosition)
  }

  /** After a successful setup, the run is the discovery exchange, the
      cursor exchange, and then the polling loop on the remaining responses. */
  lemma SetupPrefix(rs: seq<Response>)
    requires |rs| >= 2 && DiscoveryOk(rs[0]) && CursorOk(rs[1])
    ensures var s := SetupSession(rs);
      Run(Resolving, rs) ==
        Prepend(Exchange(Discover, [RealtimeUrl(s.pollURL)]),
          Prepend(Exchange(ReadCursor, [StreamPosition(s.streamPos)]),
            Run(Waiting(s), rs[2..])))
  {
    RunStep(Resolving, rs);
    var url := rs[0].body.entries.value[0].url;
    assert rs[1..][0] == rs[1];
    assert rs[1..][1..] == rs[2..];
    RunStep(Initialising(url), rs[1..]);
  }

  /** No long poll is issued unless discovery and cursor initialisation both
      succeeded on the first two responses; every poll goes to the first
      discovered entry's URL. */
  lemma PollNeedsSetup(token: string, rs: seq<Response>, i: nat)
    requires token != ""
    requires i < |Program(Some(token), rs).log| && Program(Some(token), rs).log[i].request.Poll?
    ensures |rs| >= 3 && DiscoveryOk(rs[0]) && CursorOk(rs[1])
    ensures Program(Some(token), rs).log[i].request.url == rs[0].body.entries.value[0].url
  {
    var log := Run(Resolving, rs).log;
    if rs == [] {
      assert false;
    }
    if !DiscoveryOk(rs[0]) {
      DiscoveryFailureStops(token, rs);
      assert false;
    }
    var url := rs[0].body.entries.value[0].url;
    RunStep(Resolving, rs);
    var after := Run(Initialising(url), rs[1..]);
    assert log == [Exchange(Discover, [RealtimeUrl(url)])] + after.log;
    if |rs| == 1 {
      assert false;
    }
    assert rs[1..][0] == rs[1];
    if !CursorOk(rs[1]) {
      CursorFailureStops(url, rs[1..]);
      assert false;
    }
    SetupPrefix(rs);
    var s := SetupSession(rs);
    var loop := Run(Waiting(s), rs[2..]);
    assert log == [Exchange(Discover, [RealtimeUrl(url)])] + ([Exchange(ReadCursor, [StreamPosition(s.streamPos)])] + loop.log);
    assert i >= 2;
    assert log[i] == loop.log[i - 2];
    RunShape(Waiting(s), rs[2..]);
    PollUrlStable(Waiting(s), rs[2..]);
  }

  /** One step after resolution keeps the poll URL. */
  lemma StepKeepsUrl(st: State, r: Response)
    requires PollUrlOf(st).Some?
    ensures Step(st, r).Continue? ==> PollUrlOf(Step(st, r).next) == PollUrlOf(st)
  {
  }

  /** The poll URL, once resolved, never changes: every later state holds it
      and every long poll goes to it. */
  lemma {:induction false} PollUrlStable(st: State, rs: seq<Response>)
    requires PollUrlOf(st).Some?
    ensures Run(st, rs).Running? ==> PollUrlOf(Run(st, rs).state) == PollUrlOf(st)
    ensures forall i :: 0 <= i < |Run(st, rs).log| && Run(st, rs).log[i].request.Poll? ==>
              Run(st, rs).log[i].request.url == PollUrlOf(st).value
    decreases |rs|
  {
    if rs != [] {
      RunStep(st, rs);
      var o := Step(st, rs[0]);
      if o.Continue? {
        StepKeepsUrl(st, rs[0]);
        PollUrlStable(o.next, rs[1..]);
        var rest := Run(o.next, rs[1..]);
        assert Run(st, rs).log == [Exchange(RequestOf(st), o.reports)] + rest.log;
        forall i | 0 < i < |Run(st, rs).log|
          ensures Run(st, rs).log[i] == rest.log[i - 1]
        {
        }
      }
    }
  }

  /** Reconnects, unknown messages and missing messages are reported and
      leave the session alone: N of them issue exactly N long polls, all to
      the same URL, and the client is still waiting with the same cursor. */
  lemma {:induction false} IdleTrace(s: Session, rs: seq<Response>)
    requires forall i :: 0 <= i < |rs| ==> Idle(rs[i])
    ensures Run(Waiting(s), rs).Running?
    ensures Run(Waiting(s), rs).state == Waiting(s)
    ensures |Run(Waiting(s), rs).log| == |rs|
    ensures forall i :: 0 <= i < |rs| ==> Run(Waiting(s), rs).log[i].request == Poll(s.pollURL)
    decreases |rs|
  {
    if rs != [] {
      assert Idle(rs[0]);
      RunStep(Waiting(s), rs);
      var reps := Step(Waiting(s), rs[0]).reports;
      assert Step(Waiting(s), rs[0]) == Continue(Waiting(s), reps);
      IdleTrace(s, rs[1..]);
      var rest := Run(Waiting(s), rs[1..]);
      assert Run(Waiting(s), rs).log == [Exchange(Poll(s.pollURL), reps)] + rest.log;
    }
  }

  /** A reconnect is answered by polling the same URL again, with the same
      cursor, after one `reconnect` line. */
  lemma ReconnectReusesUrl(s: Session, rs: seq<Response>)
    requires rs != [] && PollReadable(rs[0]) && rs[0].body.message == Str("reconnect")
    ensures Run(Waiting(s), rs) == Prepend(Exchange(Poll(s.pollURL), [Reconnecting]), Run(Waiting(s), rs[1..]))
  {
    RunStep(Waiting(s), rs);
  }

  /** A long poll that cannot be read ends the program right after it. */
  lemma PollFailureIsFatal(s: Session, rs: seq<Response>)
    requires rs != [] && !PollReadable(rs[0])
    ensures Run(Waiting(s), rs) == Exited([Exchange(Poll(s.pollURL), [])], PollFailed)
  {
    RunStep(Waiting(s), rs);
  }

  /** A failed event fetch (the request rejects, the body is `null`, or an
      element of `entries` is `null`) is reported, keeps the session as it was,
      and hands the remaining responses back to the polling loop. Its lines
      end with the event-list error line, which is the only line when the
      response could not be read at all. */
  lemma FetchFailureRecovers(s: Session, rs: seq<Response>)
    requires rs != [] && !FetchOk(rs[0])
    ensures Step(Fetching(s), rs[0]).Continue?
    ensures var reps := Step(Fetching(s), rs[0]).reports;
      && Run(Fetching(s), rs) == Prepend(Exchange(FetchEvents(s.streamPos), reps), Run(Waiting(s), rs[1..]))
      && reps != [] && reps[|reps| - 1] == EventListUnavailable
      && (!PollReadable(rs[0]) ==> reps == [EventListUnavailable])
  {
  }

  /** One step never changes the poll URL, and changes the cursor only by
      an event fetch whose success handler completes, which sets it to the
      response's `next_stream_position`, whether or not there were events. */
  lemma CursorMovesOnlyOnFetch(st: State, r: Response)
    requires st.Waiting? || st.Fetching?
    requires Step(st, r).Continue?
    ensures Step(st, r).next.Waiting? || Step(st, r).next.Fetching?
    ensures st.Fetching? ==> Step(st, r).next.Waiting?
    ensures Step(st, r).next.session.pollURL == st.session.pollURL
    ensures Step(st, r).next.session.streamPos ==
      if st.Fetching? && FetchOk(r) then r.body.nextStreamPosition else st.session.streamPos
  {
  }

  /** The lines of a completed fetch: one `event_type: event_id` line per
      event in server order, or one error line when there are none. A `null`
      element stops the lines at the first `null` element, whose index is the
      number of event lines, and adds the error line. */
  lemma FetchReports(s: Session, r: Response)
    requires r.Reply? && r.body.Fields?
    ensures var o := Step(Fetching(s), r);
      var es := if r.body.entries.Some? then r.body.entries.value else [];
      o.Continue? &&
      (|es| == 0 ==> o.reports == [EventListUnavailable]) &&
      (FetchOk(r) && |es| > 0 ==>
         |o.reports| == |es| &&
         forall i :: 0 <= i < |es| ==> o.reports[i] == EventSeen(es[i].eventType, es[i].eventId)) &&
      (!FetchOk(r) ==>
         var k := |EventLines(es)|;
         k < |es| && es[k].NullEntry? && (forall i :: 0 <= i < k ==> es[i].Record?) &&
         o.reports == EventLines(es[..k]) + [EventListUnavailable])
  {
    if r.body.entries.Some? {
      EventLinesPrefix(r.body.entries.value, |EventLines(r.body.entries.value)|);
    }
  }

  /** The event lines of a list whose first null element is at `k` are
      those of the prefix before it. */
  lemma EventLinesPrefix(es: seq<Entry>, k: nat)
    requires k == |EventLines(es)|
    ensures EventLines(es) == EventLines(es[..k])
  {
  }

  /** The `next_stream_position` a response carries, `undefined` if none. */
  function NextPosition(r: Response): Value
  {
    if r.Reply? && r.body.Fields? then r.body.nextStreamPosition else Undefined
  }

  /** One change notification followed by the event fetch it triggers. */
  datatype Cycle = Cycle(signal: Response, fetch: Response)

  /** The responses of a sequence of cycles, in order. */
  function Flatten(cs: seq<Cycle>): (rs: seq<Response>)
    ensures |rs| == 2 * |cs|
    decreases |cs|
  {
    if cs == [] then [] else [cs[0].signal, cs[0].fetch] + Flatten(cs[1..])
  }

  /** The flattened responses are the cycles' pairs, in order: the i-th
      change notification at position 2i, its fetch right after it. */
  lemma {:induction false} FlattenPairs(cs: seq<Cycle>)
    ensures forall i :: 0 <= i < |cs| ==>
      Flatten(cs)[2 * i] == cs[i].signal && Flatten(cs)[2 * i + 1] == cs[i].fetch
    decreases |cs|
  {
    if cs != [] {
      FlattenPairs(cs[1..]);
      forall i | 0 < i < |cs|
        ensures Flatten(cs)[2 * i] == cs[i].signal && Flatten(cs)[2 * i + 1] == cs[i].fetch
      {
        assert cs[i] == cs[1..][i - 1];
        assert Flatten(cs)[2 * i] == Flatten(cs[1..])[2 * (i - 1)];
        assert Flatten(cs)[2 * i + 1] == Flatten(cs[1..])[2 * (i - 1) + 1];
      }
    }
  }

  /** After any number of change cycles whose fetches complete, the client
      is waiting again on the same URL, and its cursor is the one returned by
      the last fetch (or the initial one after no cycles). */
  lemma {:induction false} CursorIsLastFetched(s: Session, cs: seq<Cycle>)
    requires forall i :: 0 <= i < |cs| ==> Change(cs[i].signal) && FetchOk(cs[i].fetch)
    ensures Run(Waiting(s), Flatten(cs)).Running?
    ensures Run(Waiting(s), Flatten(cs)).state ==
      Waiting(Session(s.pollURL,
        if |cs| == 0 then s.streamPos else NextPosition(cs[|cs| - 1].fetch)))
    decreases |cs|
  {
    if cs != [] {
      var c := cs[0];
      var rs := Flatten(cs);
      assert rs[0] == c.signal;
      assert rs[1..][0] == c.fetch;
      assert rs[1..][1..] == Flatten(cs[1..]);
      var reps := Step(Waiting(s), c.signal).reports;
      assert Step(Waiting(s), c.signal) == Continue(Fetching(s), reps);
      RunStep(Waiting(s), rs);
      RunStep(Fetching(s), rs[1..]);
      CursorMovesOnlyOnFetch(Fetching(s), c.fetch);
      var s' := Session(s.pollURL, NextPosition(c.fetch));
      assert Step(Fetching(s), c.fetch).next == Waiting(s');
      CursorIsLastFetched(s', cs[1..]);
      if |cs| > 1 {
        assert cs[1..][|cs[1..]| - 1] == cs[|cs| - 1];
      }
    }
  }

  /** Whatever has happened before, the event fetch triggered by a change
      notification asks for the cursor the session holds at that moment. */
  lemma FetchUsesCurrentCursor(st: State, rs: seq<Response>, s: Session, signal: Response, fetch: Response)
    requires Run(st, rs).Running? && Run(st, rs).state == Waiting(s)
    requires Change(signal)
    ensures var l := Run(st, rs).log;
      var l' := Run(st, rs + [signal, fetch]).log;
      |l'| == |l| + 2 && l'[..|l|] == l &&
      l'[|l|] == Exchange(Poll(s.pollURL), [ChangeDetected]) &&
      l'[|l| + 1].request == FetchEvents(s.streamPos)
  {
    RunAppend(st, rs, [signal, fetch]);
    ChangeThenFetch(s, signal, fetch);
  }

  /** A change notification followed by its fetch: two exchanges, the poll
      and then the fetch at the session's cursor. */
  lemma ChangeThenFetch(s: Session, signal: Response, fetch: Response)
    requires Change(signal)
    ensures var t := Run(Waiting(s), [signal, fetch]);
      && t.Running? && |t.log| == 2
      && t.log[0] == Exchange(Poll(s.pollURL), [ChangeDetected])
      && t.log[1].request == FetchEvents(s.streamPos)
  {
    RunStep(Waiting(s), [signal, fetch]);
    assert [signal, fetch][1..] == [fetch];
    RunStep(Fetching(s), [fetch]);
    assert [fetch][1..] == [];
  }

  /** The end-to-end scenario of a single change: discovery, cursor "100",
      one `new_change`, and an event list with one event and cursor "101". */
  lemma OneChangeScenario()
    ensures var discovery := Reply(200, "OK", Fields(Some([Record(Str("https://poll.example/x"), Undefined, Undefined)]), Undefined, Undefined));
      var cursor := Reply(200, "OK", Fields(None, Str("100"), Undefined));
      var poll := Reply(200, "OK", Fields(None, Undefined, Str("new_change")));
      var events := Reply(200, "OK", Fields(Some([Record(Undefined, Str("ITEM_CREATE"), Str("e1"))]), Str("101"), Undefined));
      Program(Some("abc"), [discovery, cursor, poll, events]) ==
        Running(Waiting(Session(Str("https://poll.example/x"), Str("101"))),
          [ Exchange(Discover, [RealtimeUrl(Str("https://poll.example/x"))]),
            Exchange(ReadCursor, [StreamPosition(Str("100"))]),
            Exchange(Poll(Str("https://poll.example/x")), [ChangeDetected]),
            Exchange(FetchEvents(Str("100")), [EventSeen(Str("ITEM_CREATE"), Str("e1"))]) ])
  {
    var discovery := Reply(200, "OK", Fields(Some([Record(Str("https://poll.example/x"), Undefined, Undefined)]), Undefined, Undefined));
    var cursor := Reply(200, "OK", Fields(None, Str("100"), Undefined));
    var poll := Reply(200, "OK", Fields(None, Undefined, Str("new_change")));
    var events := Reply(200, "OK", Fields(Some([Record(Undefined, Str("ITEM_CREATE"), Str("e1"))]), Str("101"), Undefined));
    var rs := [discovery, cursor, poll, events];
    SetupPrefix(rs);
    var s := SetupSession(rs);
    assert rs[2..] == [poll, events];
    ChangeThenFetch(s, poll, events);
    assert EventLines([Record(Undefined, Str("ITEM_CREATE"), Str("e1"))]) == [EventSeen(Str("ITEM_CREATE"), Str("e1"))];
    RunStep(Waiting(s), [poll, events]);
    assert [poll, events][1..] == [events];
    RunStep(Fetching(s), [events]);
  }

  /** The line a readable long poll without a change reports: `reconnect`,
      the text of any other truthy message, or the missing-message line for
      a falsy one. The session is kept in every case. */
  lemma IdleReports(s: Session, r: Response)
    requires Idle(r)
    ensures Step(Waiting(s), r) == Continue(Waiting(s),
      [ if r.body.message == Str("reconnect") then Reconnecting
        else if Truthy(r.body.message) then InvalidMessage(r.body.message)
        else MessageMissing ])
  {
  }

  /** An unknown message is reported with its text and changes nothing;
      the instance of `IdleReports` for the message "bogus". */
  lemma BogusMessageScenario(s: Session, rs: seq<Response>)
    requires rs != [] && rs[0] == Reply(200, "OK", Fields(None, Undefined, Str("bogus")))
    ensures Run(Waiting(s), rs) == Prepend(Exchange(Poll(s.pollURL), [InvalidMessage(Str("bogus"))]), Run(Waiting(s), rs[1..]))
    ensures Render(InvalidMessage(Str("bogus"))) == ErrorLine("Invalid response from Box Realtime Server (bogus)")
  {
    RunStep(Waiting(s), rs);
  }
}
