/**
 The shapes of the four HTTP exchanges of the Box long-polling client, the
 requests it issues, the lines it reports, and the fixed texts it uses.
 Every exchange is abstracted to the response value the client receives.
 */
module Protocol {
  import opened Wrappers
  import opened JsValues

  /** The Box events endpoint: discovered with OPTIONS, read with GET. */
  const EVENTS_URL: string := "https://api.box.com/2.0/events"

  const ERR_EVENT: string := "Invalid response from Box Realtime Server"
  const ERR_EVENT_LIST: string := "Unable to retrieve event list"
  const ERR_EVENT_STREAM_POS: string := "Unable to determine current event stream position"
  const ERR_POLL: string := "Enable to invoke long polling"
  const ERR_POLL_URL: string := "Unable to retrieve the long polling URL"
  const ERR_NO_TOKEN: string := "You must pass the Box API developer token on the command line to this process"

  /** One element of an `entries` array. Discovery entries carry `url`; event
      entries carry `event_type` and `event_id`; absent fields are `Undefined`.
      `NullEntry` is a `null` element, on which any field access throws. */
  datatype Entry = NullEntry | Record(url: Value, eventType: Value, eventId: Value)

  /** The parsed `data` of a response. `NullBody` is a `null` or `undefined`
      body, on which any field access throws; any other body is read through
      the three fields the client looks at (a body that is a string or number
      reads as `Fields(None, Undefined, Undefined)`). */
  datatype Body =
    | NullBody
    | Fields(entries: Option<seq<Entry>>, nextStreamPosition: Value, message: Value)

  /** What one request yields: either the request promise rejects
      (`Transport`: a network failure, or a status the HTTP client refuses),
      or a response reaches the client's success handler. */
  datatype Response = Transport | Reply(status: int, statusText: string, body: Body)

  /** The requests the client issues, all with the same bearer header. */
  datatype Request =
    | Discover                          // OPTIONS EVENTS_URL
    | ReadCursor                        // GET EVENTS_URL
    | Poll(url: Value)                  // GET <the resolved long-poll URL>
    | FetchEvents(streamPosition: Value) // GET EVENTS_URL?stream_position=<cursor>

  /** What the client reports, by kind. Each kind is shown as one console
      line, whose text `Render` gives. */
  datatype Report =
    | EndpointUnavailable(statusText: Option<string>) // discovery failed; the status text of a non-200 reply
    | RealtimeUrl(url: Value)
    | CursorUnavailable
    | StreamPosition(position: Value)
    | ChangeDetected
    | Reconnecting
    | InvalidMessage(raw: Value)
    | MessageMissing
    | EventSeen(eventType: Value, eventId: Value)
    | EventListUnavailable
    | PollFailed
    | TokenMissing

  /** The kinds shown as error lines; the rest are highlighted lines. */
  predicate IsError(r: Report)
  {
    !(r.RealtimeUrl? || r.StreamPosition? || r.ChangeDetected? || r.Reconnecting? || r.EventSeen?)
  }

  /** A console line: an error line, or a highlighted `heading: text` line. */
  datatype Line = ErrorLine(text: string) | HighlightLine(heading: string, text: string)

  /** The console line of a report. */
  function Render(r: Report): (l: Line)
    ensures l.ErrorLine? <==> IsError(r)
  {
    match r
    case EndpointUnavailable(None) => ErrorLine(ERR_POLL_URL)
    case EndpointUnavailable(Some(t)) => ErrorLine(ERR_POLL_URL + " (" + t + ")")
    case RealtimeUrl(url) => HighlightLine("Realtime URL", ToText(url))
    case CursorUnavailable => ErrorLine(ERR_EVENT_STREAM_POS)
    case StreamPosition(pos) => HighlightLine("Stream position", ToText(pos))
    case ChangeDetected => HighlightLine("new_change", "Change detected")
    case Reconnecting => HighlightLine("reconnect", "Connection timed-out, reconnecting...")
    case InvalidMessage(raw) => ErrorLine(ERR_EVENT + " (" + ToText(raw) + ")")
    case MessageMissing => ErrorLine(ERR_EVENT + " (message missing)")
    case EventSeen(t, id) => HighlightLine(ToText(t), ToText(id))
    case EventListUnavailable => ErrorLine(ERR_EVENT_LIST)
    case PollFailed => ErrorLine(ERR_POLL)
    case TokenMissing => ErrorLine(ERR_NO_TOKEN)
  }
}
