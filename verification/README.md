# Box long-polling client, modelled in Dafny

This project models the long-polling protocol state machine of the Box
long-polling example client (`longPoll` in `box-long-poll.js`). The client
does four things:

1. It discovers the realtime long-poll URL with an `OPTIONS` request on the
   Box events endpoint and takes the `url` of the first entry.
2. It reads the current `next_stream_position` with a plain `GET` and uses
   it as the cursor.
3. It loops forever on a long poll of that URL and dispatches on the
   `message` of each response: `new_change`, `reconnect`, any other value,
   or none.
4. On `new_change` it fetches the event list at `stream_position = cursor`,
   reports each event, and replaces the cursor with the response's
   `next_stream_position`.

Every HTTP exchange is abstracted to the response value the client receives
(`Protocol.Response`): either the request promise rejects (`Transport`), or
a reply with a status, a status text and a parsed body reaches the success
handler. The body is read only through the three fields the client looks at.
JavaScript's duck typing is modelled explicitly:

- `JsValues.Value` holds the scalar JSON values (`undefined`, `null`, booleans,
  integers, strings).
- `Truthy` is JavaScript's ToBoolean on those values.
- `ToText` is JavaScript's string conversion, for values whose text is exact
  (see "## Left out" for large numbers).
- `NullBody` and `NullEntry` are a `null` body or a `null` list element. Reading
  a field of either throws a `TypeError`, which lands in the surrounding
  `catch`.

The program becomes a pure transition function `LongPoll.Step`. Its states
are `Resolving`, `Initialising(pollURL)`, `Waiting(session)` and
`Fetching(session)`. Each state has one request outstanding
(`LongPoll.RequestOf`) and consumes the response to it. A step either
continues in a new state with some report lines, or is `Fatal`, which stands
for `process.exit(1)`. `Driver.Run` runs the machine over a finite list of
responses. Its log has one `Exchange(request, reports)` per response consumed.
`Driver.Program` adds the command-line token check in front.

The model follows the code's branches, including these less obvious behaviours:

- Cursor initialisation checks no status. It accepts any reply whose
  `next_stream_position` is truthy.
- After a completed event fetch, the cursor takes `next_stream_position`
  unconditionally, even when that field is absent. The cursor then becomes
  `undefined`. It is not kept.
- A long-poll reply whose body is `null` is fatal, like a transport error,
  because reading `message` throws inside the loop's `try`.
- An event list with a `null` element shows the events before it, then one
  `Unable to retrieve event list` line, and keeps the cursor. Reading a field
  of that element throws in the success handler, and the handler's `catch`
  treats that as a failed fetch.
- On `reconnect` the client polls the same URL again. It does not repeat
  discovery (`Properties.ReconnectReusesUrl`).
- The long-poll error text is kept exactly as written: "Enable to invoke long
  polling".

## Model

| member | source | states |
|---|---|---|
| `LongPoll.ResolveEndpoint` | box-long-poll.js:47-78 | resolution succeeds exactly for a status-200 readable reply whose `entries` list is non-empty with an object first, and the URL is the `url` of entry 0; every failure is the endpoint-unavailable report, carrying the status text exactly when the status is not 200 |
| `LongPoll.ReadStreamPosition` | box-long-poll.js:81-101 | a cursor is accepted exactly when the reply is readable and its `next_stream_position` is truthy, whatever the status, and the accepted cursor is that field; every failure is the stream-position-unavailable report |
| `LongPoll.EventLines` | box-long-poll.js:128-132 | one `EventSeen(event_type, event_id)` report per event, in server order, stopping exactly at the first `null` element |
| `LongPoll.Step` | box-long-poll.js:47-161 | every fatal outcome is reported on an error line |
| `Protocol.Render` | box-long-poll.js:10-30 | a report is shown on an error line exactly when it is an error kind, and on a highlighted line otherwise |
| `Driver.Program` | box-long-poll.js:165-172 | the program exits with the token error and no request exactly when the token is missing or empty; otherwise the first request is the discovery request |
| `Driver.RunShape` | box-long-poll.js:106-161 | one exchange per response consumed; a run that exited issued at most that many requests and ended on an error line |
| `Driver.RunAppend` | box-long-poll.js:106-109 | running on `a + b` is running on `a` and then continuing on `b` from the state reached, so the loop has no hidden state |
| `Properties.FatalPartition` | box-long-poll.js:47-161 | a step is fatal exactly when discovery or cursor initialisation fails or the long poll cannot be read; an event fetch is never fatal |
| `Properties.FirstEntryWins` | box-long-poll.js:51-58 | discovery with status 200 selects `entries[0].url`, whatever entries follow it |
| `Properties.DiscoveryFailureStops` | box-long-poll.js:51-78 | a failed discovery exits after that one request, so no cursor read or poll ever happens; a non-200 status is reported with its status text |
| `Properties.CursorInit` | box-long-poll.js:84-90 | a truthy `next_stream_position` becomes the cursor next to the resolved URL; anything else is fatal |
| `JsValues.FalsyValues` | box-long-poll.js:84 | a scalar is falsy exactly when it is `undefined`, `null`, `false`, `0` or the empty string, so every other cursor passes the test |
| `Properties.FalsyCursorIsFatal` | box-long-poll.js:84-89 | an absent, null, false, 0 or empty cursor is refused |
| `Properties.CursorFailureStops` | box-long-poll.js:84-101 | a refused cursor exits right after the cursor request, before any poll |
| `Properties.SetupPrefix` | box-long-poll.js:47-101 | after a successful setup the run is the discovery exchange, then the cursor exchange, then the polling loop on the remaining responses |
| `Properties.PollNeedsSetup` | box-long-poll.js:46-109 | a long poll is issued only when discovery and cursor initialisation both succeeded, and it goes to the first discovered URL |
| `Properties.StepKeepsUrl` | box-long-poll.js:106-161 | no step after resolution changes the poll URL |
| `Properties.PollUrlStable` | box-long-poll.js:106-161 | over any trace after resolution, every later state keeps the poll URL and every long poll goes to it |
| `Properties.IdleTrace` | box-long-poll.js:109-155 | N responses with `reconnect`, an unknown message or no message issue exactly N polls to the same URL and leave the session unchanged |
| `Properties.ReconnectReusesUrl` | box-long-poll.js:148-150 | `reconnect` is reported and followed by a poll of the same URL with the same cursor |
| `Properties.PollFailureIsFatal` | box-long-poll.js:157-160 | a long poll that cannot be read exits right after that request |
| `Properties.FetchFailureRecovers` | box-long-poll.js:126-146 | a failed event fetch (rejected request, `null` body, or a `null` element in `entries`) ends with the event-list error line, keeps the session and returns the remaining responses to the polling loop |
| `Properties.CursorMovesOnlyOnFetch` | box-long-poll.js:126-146 | after an event fetch, whatever its response, the client is back in the polling loop; a step changes the cursor only when an event fetch's success handler completes, and then the cursor is that response's `next_stream_position`, whether or not there were events |
| `Properties.FetchReports` | box-long-poll.js:126-146 | a completed fetch reports one event report per event in server order, or one error line when the list is empty or absent; at a `null` element the reports are those of the events before the first `null` element, then the error line |
| `Properties.EventLinesPrefix` | box-long-poll.js:128-132 | the event lines of a list are those of its prefix before the first `null` element |
| `Properties.CursorIsLastFetched` | box-long-poll.js:113-137 | after any number of change-and-fetch cycles the cursor is the one returned by the last fetch, and the poll URL is unchanged |
| `Properties.FetchUsesCurrentCursor` | box-long-poll.js:117-123 | after any history, the fetch triggered by `new_change` asks for the cursor the session holds at that moment |
| `Properties.ChangeThenFetch` | box-long-poll.js:113-123 | `new_change` is reported, then exactly one fetch is issued at the current cursor |
| `Properties.OneChangeScenario` | box-long-poll.js:47-137 | the end-to-end run of discovery, cursor "100", one change and one event ends waiting on the same URL with cursor "101" |
| `Properties.IdleReports` | box-long-poll.js:110-155 | a readable poll without `new_change` reports `reconnect`, the text of any other truthy message, or the missing-message line for a falsy one, and keeps the session |
| `Properties.BogusMessageScenario` | box-long-poll.js:151-153 | the message "bogus" is reported as "Invalid response from Box Realtime Server (bogus)" and changes nothing |
| `JsValues.DecimalText` | box-long-poll.js:86 | the decimal text of a number is digits only, has no leading zero, and reads back as the number |

## Left out

- HTTP itself: the axios requests, headers, bearer authentication and
  long-poll blocking and timeouts. Each request is an abstract `Request` and
  each response an abstract input value.
- Building the event-list URL with `URL` and `searchParams`. The request is
  modelled as the pair of the events endpoint and the cursor
  (`FetchEvents(cursor)`), not as a percent-encoded string.
- Which statuses make axios reject a request. `Transport` stands for every
  rejection. Among replies, only the discovery step inspects the status.
- Console rendering: chalk colours, the boxen banner, the `Error: ` prefix,
  the progress lines "Invoking long poll..." and "Fetching events...", and
  the dumps of error objects. Reports are abstract kinds, and `Render` gives
  only their line text.
- `process.exit`, which is modelled as the `Exited` result.
- The infinite `while (true)`. It is modelled as a step function and a
  driver over a finite list of responses.
- JavaScript values beyond the scalars in `Value`: fractional numbers, NaN
  and the exponent form of large numbers in `ToText`. Also left out are
  bodies and `entries` values that are neither objects nor arrays (a string
  `entries` with a `length`, say). A body that is a string or number is
  represented by `Fields(None, Undefined, Undefined)`.
- ToText: `Num` stands for any integer and `ToText` prints it exactly. A
  JSON number in JavaScript is an IEEE double, and from 2^53 up `String`
  prints the shortest digits that round to it (`String(2**60)` is
  "1152921504606847000"), so the `Stream position` line and the text of an
  unknown numeric message differ from the model for such integers.
- Entries of the discovery list past the first, and fields of entries other
  than `url`, `event_type` and `event_id`. The client never reads them.
