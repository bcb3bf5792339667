/**
 The long-polling protocol state machine of `longPoll`: endpoint
 resolution, cursor initialisation, poll dispatch, and event fetch with
 cursor advance. Each state issues exactly one request and consumes the
 response to it; a fatal outcome stands for the process exiting with status 1.
 */
module LongPoll {
  import opened Wrappers
  import opened JsValues
  import opened Protocol

  /** The two mutable variables of `longPoll` once both are known. */
  datatype Session = Session(pollURL: Value, streamPos: Value)

  /** Where the client is: which request it is waiting on. */
  datatype State =
    | Resolving                      // OPTIONS discovery in flight
    | Initialising(pollURL: Value)   // plain events GET in flight
    | Waiting(session: Session)      // long poll in flight
    | Fetching(session: Session)     // event list GET in flight

  /** What a step does: carry on in a new state after reporting some lines,
      or report one error line and exit. */
  datatype Outcome = Continue(next: State, reports: seq<Report>) | Fatal(report: Report)

  /** The request a state has outstanding. */
  function RequestOf(st: State): Request
  {
    match st
    case Resolving => Discover
    case Initialising(_) => ReadCursor
    case Waiting(s) => Poll(s.pollURL)
    case Fetching(s) => FetchEvents(s.streamPos)
  }

  /** The poll URL a state already holds, if resolution has happened. */
  function PollUrlOf(st: State): Option<Value>
  {
    match st
    case Resolving => None
    case Initialising(u) => Some(u)
    case Waiting(s) => Some(s.pollURL)
    case Fetching(s) => Some(s.pollURL)
  }

  /** Endpoint resolution from the OPTIONS response: status 200 and a
      non-empty `entries` list select the first entry's `url`. */
  function ResolveEndpoint(r: Response): (res: Result<Value, Report>)
    ensures res.Success? <==> r.Reply? && r.status == 200 && r.body.Fields? && r.body.entries.Some?
                              && |r.body.entries.value| > 0 && r.body.entries.value[0].Record?
    ensures res.Success? ==> res.value == r.body.entries.value[0].url
    ensures res.Failure? ==> res.error.EndpointUnavailable?
    ensures res.Failure? ==>
      res.error.statusText == if r.Reply? && r.status != 200 then Some(r.statusText) else None
  {
    match r
    case Transport => Failure(EndpointUnavailable(None))
    case Reply(status, statusText, body) =>
      if status != 200 then Failure(EndpointUnavailable(Some(statusText)))
      else match body
        case NullBody => Failure(EndpointUnavailable(None))
        case Fields(entries, _, _) =>
          if entries.Some? && |entries.value| > 0 then
            match entries.value[0]
            case NullEntry => Failure(EndpointUnavailable(None))
            case Record(url, _, _) => Success(url)
          else Failure(EndpointUnavailable(None))
  }

  /** Cursor initialisation from the plain events GET: the response's
      `next_stream_position`, provided it is truthy. */
  function ReadStreamPosition(r: Response): (res: Result<Value, Report>)
    ensures res.Success? <==> r.Reply? && r.body.Fields? && Truthy(r.body.nextStreamPosition)
    ensures res.Success? ==> res.value == r.body.nextStreamPosition && Truthy(res.value)
    ensures res.Failure? ==> res.error == CursorUnavailable
  {
    match r
    case Transport => Failure(CursorUnavailable)
    case Reply(_, _, body) =>
      match body
      case NullBody => Failure(CursorUnavailable)
      case Fields(_, next, _) =>
        if Truthy(next) then Success(next) else Failure(CursorUnavailable)
  }

  /** The meaning of a long-poll `message`. */
  datatype Signal = NewChange | Reconnect | Unknown(raw: Value) | Missing

  /** Dispatch on `message`: a falsy value is missing, otherwise it is
      compared by strict equality with the two known strings. */
  function Classify(msg: Value): Signal
  {
    if !Truthy(msg) then Missing
    else if msg == Str("new_change") then NewChange
    else if msg == Str("reconnect") then Reconnect
    else Unknown(msg)
  }

  /** The event lines shown for an event list, in server order, up to the
      first `null` element, where reading a field throws. */
  function EventLines(es: seq<Entry>): (rs: seq<Report>)
    ensures |rs| <= |es|
    ensures forall i :: 0 <= i < |rs| ==> es[i].Record? && rs[i] == EventSeen(es[i].eventType, es[i].eventId)
    ensures |rs| < |es| ==> es[|rs|].NullEntry?
    decreases |es|
  {
    if es == [] || es[0].NullEntry? then [] else [EventSeen(es[0].eventType, es[0].eventId)] + EventLines(es[1..])
  }

  /** One long-poll response in state `Waiting(s)`. */
  function PollStep(s: Session, r: Response): Outcome
  {
    match r
    case Transport => Fatal(PollFailed)
    case Reply(_, _, body) =>
      match body
      case NullBody => Fatal(PollFailed)
      case Fields(_, _, msg) =>
        match Classify(msg)
        case NewChange => Continue(Fetching(s), [ChangeDetected])
        case Reconnect => Continue(Waiting(s), [Reconnecting])
        case Unknown(raw) => Continue(Waiting(s), [InvalidMessage(raw)])
        case Missing => Continue(Waiting(s), [MessageMissing])
  }

  /** One event-list response in state `Fetching(s)`. Never fatal; the
      cursor takes `next_stream_position` exactly when the success handler
      runs to its end. */
  function FetchStep(s: Session, r: Response): Outcome
  {
    match r
    case Transport => Continue(Waiting(s), [EventListUnavailable])
    case Reply(_, _, body) =>
      match body
      case NullBody => Continue(Waiting(s), [EventListUnavailable])
      case Fields(entries, next, _) =>
        var advanced := Waiting(Session(s.pollURL, next));
        if entries.Some? && |entries.value| > 0 then
          var lines := EventLines(entries.value);
          if |lines| < |entries.value| then Continue(Waiting(s), lines + [EventListUnavailable])
          else Continue(advanced, lines)
        else Continue(advanced, [EventListUnavailable])
  }

  /** The transition function of the whole client. */
  function Step(st: State, r: Response): (o: Outcome)
    ensures o.Fatal? ==> IsError(o.report)
  {
    match st
    case Resolving =>
      (match ResolveEndpoint(r)
       case Success(url) => Continue(Initialising(url), [RealtimeUrl(url)])
       case Failure(e) => Fatal(e))
    case Initialising(url) =>
      (match ReadStreamPosition(r)
       case Success(pos) => Continue(Waiting(Session(url, pos)), [StreamPosition(pos)])
       case Failure(e) => Fatal(e))
    case Waiting(s) => PollStep(s, r)
    case Fetching(s) => FetchStep(s, r)
  }
}
