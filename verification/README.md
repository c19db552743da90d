# Broadcast hub and panel helpers of the Adobe CEP chat panel, in Dafny

The panel (js/app.js) forwards prompts to a chat API, runs generated
ExtendScript in the host application, and broadcasts its activity to
external tools over Server-Sent Events. This project models its one
stateful component, the MCP broadcast hub, and the small string functions
the panel relies on.

- **History** (`history.dfy`): the records `emitMcpMessage` builds
  (`{id, timestamp, ...payload}`) and the newest-first history capped at 50
  entries.
- **Registry** (`registry.dfy`): the `mcpClients` list. `/sse` appends a
  connection and the request's `close` event filters it out.
- **Hub** (`hub.dfy`): `lastHostInfo`, `mcpServer`, `mcpClients` and
  `mcpHistory` as one immutable state. Each step is a pure function:
  `Emit`, `Route` (`/sse`, `/snapshot`, 404), `Disconnect` and `Start` (the
  start guard). `Valid` is the invariant every step keeps.
- **Delivery** (`delivery.dfy`): runs of publishes, requests and closes.
  This module says what each connection receives and how a run relates to
  the history.
- **CodeBlock** (`code_block.dfy`): `extractCodeBlock`, written as an
  explicit scan instead of a regular expression, and the insert-button rule
  of `updateLastGptReply`.
- **ScriptEscape** (`script_escape.dfy`): how `handleRunCode` escapes code
  into a double-quoted ExtendScript literal. A literal decoder serves as the
  partner for the round-trip.
- **HostContext** (`host_context.dfy`): normalising the host summary, the
  refresh callback, and prompt composition in `handleCallGPT`.
- **JsStrings** (`js_strings.dfy`): `String.prototype.trim` and the `\w`
  class. **Optional** (`optional.dfy`): `None` stands for `undefined`,
  `null` and falsy payloads.

`JSON.stringify` is a parameter `ser: Record -> string`. The clock readings
(`Date.now()` and the ISO time) are a `Stamp` parameter. A response object
is an opaque `Conn` identity, because the source compares connections only
by reference.

## Model

| member | source | states |
|---|---|---|
| History.MakeRecord | js/app.js:101-105 | A record takes its id and timestamp from the stamp and carries the payload's role and text unchanged. |
| History.Push | js/app.js:106 | The new record is at index 0. It is followed by the first min(n, 49) records of the old history, in order. The length is min(n+1, 50). |
| History.PushAllIsNewest | js/app.js:106 | Any sequence of pushes leaves exactly the 50 newest records, newest first, ahead of the older history. This is the ring checked against a reference definition. |
| History.HistoryAfterPushes | js/app.js:106 | Starting from an empty history, N pushes leave min(N, 50) records. Position k holds the record pushed k pushes before the last one. |
| Registry.Register | js/app.js:136 | The connection is appended at the end. The earlier connections are unchanged. |
| Registry.Close | js/app.js:137-139 | The closed connection no longer appears, and the list does not grow. |
| Registry.CloseCounts | js/app.js:138 | Every occurrence of the closed connection is removed. Every other connection stays as often as it was registered. |
| Registry.CloseConcat | js/app.js:138 | The filter distributes over concatenation, so the remaining connections keep their relative order. |
| Registry.CloseAbsent | js/app.js:138 | Closing a connection that is not registered is a no-op. |
| Registry.CloseIdempotent | js/app.js:137-139 | A second close of the same connection changes nothing. |
| Registry.CloseCommutes | js/app.js:137-139 | Closing two connections gives the same list in either order. |
| Registry.CloseUndoesRegister | js/app.js:136-139 | Closing a connection undoes its registration. A connection that was not registered before leaves the list exactly as it was. |
| Registry.CloseOtherAfterRegister | js/app.js:136-139 | Registering one connection does not interfere with closing a different one. |
| Hub.Frame | js/app.js:110 | A frame is `data: `, then the serialised record, then a blank line. It is 8 characters longer than the serialisation. |
| Hub.FrameDataRoundTrip | js/app.js:110 | An event-stream reader that takes a frame apart gets back exactly the serialised record, provided the serialisation has no line feed or carriage return. A reader ends a line at either character. |
| Hub.Broadcast | js/app.js:110-113 | There is one write per registered connection, in list order, each carrying the same data. |
| Hub.AppendMessage | js/app.js:54-61 | Emits `{ role, text }` to the hub: the record is pushed onto the history and its frame goes to every client. Nothing else changes. |
| Hub.Emit | js/app.js:97-114 | A falsy payload changes nothing and writes nothing. Otherwise the record is pushed at the front of the history, capped at 50. Each client gets exactly one `data: <json>\n\n` frame, in list order, so no client means no write. Clients, host info and server state are untouched. |
| Hub.Route | js/app.js:128-152 | `/sse` appends the response to the clients and opens a 200 event stream with the stream headers and a first `\n`. `/snapshot` answers 200 JSON `{hostInfo, history}` and leaves the state unchanged. Any other URL answers 404 `Not Found` and leaves the state unchanged. |
| Hub.Disconnect | js/app.js:137-139 | The connection is gone, every other connection keeps its count, and the history, host info and server state are unchanged. |
| Hub.Start | js/app.js:116-128 | When the server exists, the state is untouched and the status is "running". When Node is unavailable, the status is "failed", the server is not marked running, and the system notice is emitted: it is pushed onto the old history and its frame goes to every client. Otherwise the server is marked running, with no write and no status yet. |
| Hub.StartTwiceIsNoOp | js/app.js:117-120 | Once a start has created the server, any later start returns the same state with no writes. |
| Hub.EmitPreservesValid | js/app.js:106 | An emit keeps the history at most 50 long and registers nobody. |
| Hub.DisconnectPreservesValid | js/app.js:137-139 | A close keeps the hub invariant. |
| Hub.StartPreservesValid | js/app.js:116-128 | A start keeps the hub invariant, including a failed start that emits its notice. |
| Hub.RoutePreservesValid | js/app.js:128-152 | A request keeps the hub invariant: only a running hub registers a connection. |
| Hub.NoWritesBeforeStart | js/app.js:107-109 | Before the server exists, an emit performs no writes. |
| Hub.OpenThenCloseRestores | js/app.js:136-139 | Opening an event stream and closing it again restores the exact prior state. |
| Hub.DisconnectIdempotent | js/app.js:137-139 | A repeated close event changes nothing more. |
| Hub.SnapshotAfterEmit | js/app.js:142-147 | A snapshot taken right after an emit shows the new record first and the current host info. |
| Delivery.FramesToBroadcast | js/app.js:111-113 | A broadcast writes to a connection once for every time that connection is registered. |
| Delivery.ApplyDelivers | js/app.js:97-139 | Take a connection registered once that a step does not touch. The step gives it exactly the frame of the record it publishes, and the connection stays registered once. |
| Delivery.SubscriberReceivesEveryEvent | js/app.js:107-113 | Take a connection registered once that is neither reopened nor closed during a run. It receives the frame of every record the run publishes, in publish order, and nothing else. |
| Delivery.SubscriberStaysRegistered | js/app.js:136-139 | Such a connection is still registered exactly once at the end of the run. |
| Delivery.SubscribersAgree | js/app.js:111-113 | Two such connections receive identical frame sequences. |
| Delivery.AbsentReceivesNothing | js/app.js:137-139 | A connection that is not registered, and is not opened during a run, receives no write and is still unregistered at the end. |
| Delivery.RunHistory | js/app.js:106 | After a run, the history equals the pushes of its records. It is the newest 50 of them, newest first. |
| Delivery.ApplyPreservesValid | js/app.js:97-139 | Every single event keeps the hub invariant. |
| Delivery.RunPreservesValid | js/app.js:106-139 | Every run keeps the hub invariant. |
| Delivery.RunConcat | js/app.js:97-139 | A run of `a + b` is the run of `a` followed by the run of `b` from the state `a` left. Its writes are those of `a`, then those of `b`. |
| Delivery.AttachMidRun | js/app.js:129-139 | A subscriber that attaches in the middle of a run receives `\n` and then the frame of every record published after it attached, in order. It receives nothing from earlier. |
| Delivery.CloseMidRun | js/app.js:136-139 | A subscriber that closes in the middle of a run receives the frames of the records published before its close and nothing after it. |
| Delivery.LateSubscriberSeesSuffix | js/app.js:107-113 | Take an early subscriber and a later one. The early one receives the frames from before and after the later one attached. The later one receives `\n` and then the frames from after, so the shared events arrive in the same order. |
| Delivery.TwoSubscribersScenario | js/app.js:129-139 | Connection 1 attaches, D is published, connection 2 attaches, E is published. Connection 1 receives `\n`, D and E. Connection 2 receives `\n` and E. |
| CodeBlock.WordRunEnd | js/app.js:74 | Returns the end of the maximal run of `\w` characters. |
| CodeBlock.FindClose | js/app.js:74 | Returns the nearest closing fence at or after a position, or none, which means there is no fence at all from that position on. |
| CodeBlock.FindBlock | js/app.js:74 | The scan for the pattern returns only positions at or after its start where a complete match begins. |
| CodeBlock.FindBlockLeftmost | js/app.js:74 | The scan returns the leftmost match of the pattern. When it returns none, no position matches. |
| CodeBlock.ExtractCodeBlock | js/app.js:73-76 | The result never starts or ends with whitespace. |
| CodeBlock.ExtractWithoutBlock | js/app.js:73-76 | A text with no match gives `""`. |
| CodeBlock.FirstBlockExists | js/app.js:74 | A text with a match has a leftmost one, and its capture group is determined. |
| CodeBlock.ExtractFirstBlock | js/app.js:73-76 | When a leftmost match exists, the result is its captured code, trimmed. |
| CodeBlock.ExtractFencedCode | js/app.js:74-75 | A reply of the form fence, word-character tag, newline, code, fence gives back the trimmed code, provided the code holds no backquote. |
| CodeBlock.UpdateLastGptReply | js/app.js:78-82 | A falsy reply is stored as `""`. The insert button is disabled exactly when extraction yields `""`. |
| CodeBlock.InsertDisabledWithoutBlock | js/app.js:78-82 | A reply with no fenced block, including a falsy reply, leaves the insert button disabled. |
| CodeBlock.InsertEnabledIff | js/app.js:78-82 | For a reply that has a fenced block, the insert button is enabled exactly when the first block holds something besides whitespace. |
| JsStrings.LeadingEnd | js/app.js:75 | Finds the first non-whitespace character at or after a position. Everything it skips is whitespace. |
| JsStrings.TrailingStart | js/app.js:75 | Finds the end of the last non-whitespace character. Everything after it is whitespace. |
| JsStrings.Trim | js/app.js:75 | The result has no whitespace at either end. It is empty exactly when the input is all whitespace. |
| JsStrings.TrimIsInfix | js/app.js:75 | The trimmed string is an infix of the input with only whitespace around it. |
| JsStrings.TrimOfPadded | js/app.js:75 | Take whitespace, then a non-empty string with no whitespace at either end, then whitespace. Trimming returns exactly the middle string, so trim is determined by the shape it produces. |
| JsStrings.TrimIdempotent | js/app.js:75 | Trimming twice is the same as trimming once. |
| ScriptEscape.ReplaceChar | js/app.js:288 | Every character other than the replaced one survives the replacement. When `rep` does not contain the replaced character, no occurrence of it remains. |
| ScriptEscape.ReplaceCharOne | js/app.js:288 | On one character, the result is `rep` for the replaced character and the character itself otherwise. |
| ScriptEscape.ReplaceCharConcat | js/app.js:288 | The replacement distributes over concatenation. Together with ReplaceCharOne this fixes the result on every string: each occurrence becomes `rep` in place. |
| ScriptEscape.ReplaceCharAbsent | js/app.js:288 | A string without the replaced character comes back unchanged. |
| ScriptEscape.ReplaceNewlines | js/app.js:288 | After replacing `\r?\n` globally, no raw line feed remains. |
| ScriptEscape.ReplaceNewlinesWithoutLineFeed | js/app.js:288 | Text without a line feed comes back unchanged, so a lone `\r` stays. |
| ScriptEscape.ReplaceNewlinesFirstLineFeed | js/app.js:288 | The leftmost match is the first line feed, together with a `\r` right before it if there is one. It becomes backslash-n, and replacement continues after it. So both `\r\n` and `\n` become backslash-n. Together with ReplaceNewlinesWithoutLineFeed this fixes the result on every string. |
| ScriptEscape.EscapeCode | js/app.js:288 | The escaped code never contains a raw line feed. |
| ScriptEscape.EscapeCodeIsEscapeEach | js/app.js:288 | Without carriage returns, the three passes equal escaping each character on its own. |
| ScriptEscape.DecodeEscapeEach | js/app.js:288 | For a string without `\r`, decoding the per-character escape gives back the original string. |
| ScriptEscape.EscapeCodeRoundTrip | js/app.js:288 | For code without `\r`, decoding the escaped code (`\\n` to newline, `\\"` to `"`, `\\\\` to `\`) returns the code. This also shows the escaped code is a well-formed literal body. |
| ScriptEscape.RunCodeScript | js/app.js:283-290 | No script is built exactly when the code box holds only whitespace. |
| ScriptEscape.RunCodeScriptDenotesCode | js/app.js:283-290 | For code without `\r`, the script is `runDynamicExtendScript("…")` whose single literal argument denotes exactly the trimmed code. |
| HostContext.NormalizeHostInfo | js/app.js:258 | The result is `""` exactly when the bridge result is missing, empty or the literal `undefined`. Otherwise it is that result. |
| HostContext.NormalizeHostInfoIdempotent | js/app.js:258 | Normalising an already normalised value changes nothing. |
| HostContext.RefreshHostInfo | js/app.js:257-266 | Stores the normalised summary. If it is non-empty, the announcement and then the `host` record are pushed onto the old history, and each is broadcast to every client in that order. Otherwise only the no-information notice is pushed and broadcast. Clients and server state are unchanged. |
| HostContext.RefreshDelivers | js/app.js:257-266 | A subscriber registered once receives the announcement frame and then the `host` record frame when a summary was found. Otherwise it receives only the no-information frame. |
| HostContext.ComposePrompt | js/app.js:215-218 | The final prompt equals the prompt exactly when the flag is off or the host info is empty. Otherwise it is the prompt, then `\n\n[Adobe 프로젝트 정보]\n`, then the host info. |
| HostContext.PrepareChat | js/app.js:204-218 | No request is made exactly when the trimmed key or the trimmed prompt is empty. Otherwise the request carries the trimmed key and the composed prompt. |
| HostContext.RefreshThenPrepareChat | js/app.js:215-218 | After a refresh, a chat with the flag set appends the summary exactly when one was found. |

## Left out

- DOM wiring, modal dialogs, button states other than the insert-code rule, the clipboard and `localStorage` (js/app.js:14-33, 43-59, 63-71, 84-95, 166-197, 298-319). They are UI plumbing with no logic to state. The one line of `appendMessage` that reaches the hub, its emit (js/app.js:60), is modelled by Hub.AppendMessage.
- The Node `http` server itself: `listen`, the port, the `error` handler and the `beforeunload` cleanup (js/app.js:153-163, 321-326). These are I/O. The "server started" notice that the `listen` callback emits is not modelled, because it depends on the port the operating system assigns.
- Hub.Route: requires a running hub, because the request handler exists only once `http.createServer` has run (js/app.js:128).
- Hub.Emit: the payload is `{role, text}`, which is the shape every call site passes. A payload with its own `id` or `timestamp` keys, which the object spread would let override the stamp, is not modelled.
- Record ids come from `Date.now()` (js/app.js:102). Two records can share an id, and ids need not increase. The model claims nothing about their uniqueness or order. `RefreshHostInfo` takes two stamps that may be equal.
- A failing `client.write` is not modelled. The source has no per-client error handling, and a broken connection leaves the list only through its `close` event.
- `JSON.stringify`, `Date.now()` and `toISOString()` are parameters, so no property of the JSON text is stated.
- Delivery.SubscriberReceivesEveryEvent: requires that no event of the run reuses the connection's response object. Node creates a new response object for every request.
- ScriptEscape.EscapeCodeRoundTrip: requires code with no carriage return. `\r\n` is turned into backslash-n and a lone `\r` stays raw (ReplaceNewlinesFirstLineFeed, ReplaceNewlinesWithoutLineFeed), so such code would not come back unchanged. A textarea's value never contains a carriage return. The decoder checks only line feed and carriage return as raw line terminators, not U+2028 or U+2029.
- The messages `handleCallGPT` shows and emits around the chat call (js/app.js:219-229), `handleAddMarker` (js/app.js:237-249), `handleInsertLastCode` (js/app.js:269-276), and the branches taken when `CSInterface` or `callChatGPT` is missing. They are UI reporting around calls into code outside this model.
- js/chatApi.js (the HTTPS chat-completion call), js/mcpConnector.js (an `EventSource` wrapper) and jsx/hostscript.jsx (ExtendScript running in the host) are not part of this model. They are network and host-runtime calls with no logic of the hub's own.
- Strings are sequences of Unicode scalar values, whereas JavaScript strings are UTF-16. Every character that trim, `\w` and the escaping look at lies in the Basic Multilingual Plane, so the difference does not affect them.
