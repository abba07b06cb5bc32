# DVV chat relay and chat store, in Dafny

This project models the two halves of the DVV Assistant chat stream.

- **The edge relay** (`src/app/api/chat.ts`). It refuses a request that is not a POST, that arrives without an API key, or whose `messages` is not an array. It forwards the rest to the model provider. When the provider answers with an ok status and a body, it relays that body as a server-sent-event stream. Otherwise it returns the provider's status and text (or throws; see Behaviour worth knowing). While relaying, it:
  - buffers the decoded reads;
  - cuts them into lines on `'\n'`;
  - keeps only trimmed `data:` lines;
  - turns `choices[0].delta.content` into `{delta}` events;
  - stops at `[DONE]`;
  - closes the stream with exactly one `{done}` or `{error}` event.
- **The browser-side `ChatService`** (`src/app/chat.service.ts`). It holds the conversation history and a loading flag. `ask` first pushes an empty assistant message, then posts the history with that message included. It appends the `delta` of every `data:` line of every read to that message. Any failure appends an `(error)` note.

## Modules

| file | module | models |
|---|---|---|
| `strings.dfy` | `Options`, `Strings` | `String.prototype.trim` with the ECMAScript whitespace set, `split('\n')` and its inverse, and decimal rendering of a status |
| `sse.dfy` | `Http`, `Sse` | `Response.ok`, and how one line yields a `data:` payload (a subset of the `data:` field rule of section 9.2 of the WHATWG HTML Living Standard) |
| `relay.dfy` | `Relay` | The relay loop of `chat.ts`, with these parts: <ul><li>a `Writer` class (an event log plus a closed flag);</li><li>`Pump`, the read loop, proved against the step function `Step` and the run `Run`;</li><li>a whole-text reference `Relayed`.</li></ul> |
| `gateway.dfy` | `Gateway` | The checks `chat.ts` makes before streaming, as the function `Gate`, and the handler `Handle` that composes the gate with `Pump` |
| `chat_service.dfy` | `ChatStore` | The `ChatService` class: its `history` and `loading` fields, the list edits, and `ask` with its per-read line loop |
| `end_to_end.dfy` | `EndToEnd` | The relay's frames read by `ask` |

`JSON.parse` followed by the member lookup is a parameter, `parse: string -> Payload`. Its result is `Unparseable` or `Parsed(text)`, and `text` is absent when the member is missing or null. The relay's `parse` reads `choices[0].delta.content`; the client's reads `delta`.

Three other parameters stand in for the environment:
- `fetch`, both the one towards the provider and the one towards the relay;
- the environment variable holding the key;
- the upstream body, given as `Upstream(chunks, end)`: the decoded reads in order, then `Eof` or `Fails(message)` for a read that throws.

The main results are these.
- `Relay.Pump` writes exactly `Run("", chunks, end, rule)` and closes the writer.
- `Relay.RunMatchesReference` shows that `Run` equals `Relayed` of the concatenated text. So the events depend on the text and not on where the reads split it (`Relay.ChunkingInvariance`).
- `Relay.RelayedShape` proves:
  - every relayed stream is deltas followed by one terminal event;
  - that event is `done` exactly when `[DONE]` was read or the upstream ended normally;
  - the relay never writes an empty delta.
- On the client side, `ChatStore.ChatService.Ask` shows that the history gains exactly one assistant message and keeps all earlier messages. That message's content is `AssistantText` of the reply.
- `ChatStore.SplitDataLineIsLost` shows that a `data:` line cut across two reads is lost, because the client does not buffer across reads.
- `EndToEnd.RelayErrorInvisible` shows that a relay `{error}` event never reaches the user, when each client read carries one relay frame.

### Behaviour worth knowing


- **Missing key.** The key is read from `OPENROUTER_API_KEY`. When it is missing or empty, the answer is **401** (`chat.ts:7-11`).
- **OPTIONS preflight.** There is no preflight handling. An `OPTIONS` request is answered **405** like any other non-POST method (`chat.ts:4`).
- **`messages` check.** `messages` is only checked with `Array.isArray` (`chat.ts:15`). Its elements are not checked.
- **Unreadable body.** A body that is not JSON is accepted as `messages: []` (`chat.ts:14`).
- **Exceptions before streaming.** A JSON `null` body, or a `fetch` that rejects, makes the handler throw (`Gate` yields `Throws`; `Handle` returns `Failed`). The handler builds no 502 response of its own.
- **Mirrored statuses the `Response` constructor refuses.** An upstream answer without a usable body is mirrored with `new Response(text, { status })` (`chat.ts:31-35`). The `Response` class of the WHATWG Fetch Standard refuses a body with a null body status (204, 205, 304), and any status outside 200 to 599. For those the handler throws instead of mirroring (`Gateway.Constructible`).
- **Closing the writer.** The writer is never closed twice. `Writer.Close` requires an open writer, and every call site is proved to meet that requirement.
- **Client buffering.** The client splits each read on its own (`chat.service.ts:53-54`). It treats `[DONE]` as `continue` (`chat.service.ts:58`).

## Model

| member | source | states |
|---|---|---|
| `Strings.Trim` | src/app/api/chat.ts:54 | `String.prototype.trim`: the text without its leading and trailing ECMAScript whitespace. `TrimStartSpec`, `TrimEndSpec` and `TrimSpec` pin its result |
| `Strings.TrimStartSpec` | src/app/api/chat.ts:54 | `trim` removes only whitespace from the front and leaves a first character that is not whitespace |
| `Strings.TrimEndSpec` | src/app/api/chat.ts:54 | `trim` removes only whitespace from the end and leaves a last character that is not whitespace |
| `Strings.TrimSpec` | src/app/api/chat.ts:54 | A trimmed string has no surrounding whitespace and is no longer than the input. A string with any non-whitespace character does not trim to empty |
| `Strings.TrimOfTrimmed` | src/app/api/chat.ts:56 | A string without surrounding whitespace is left unchanged by `trim` |
| `Strings.TrimIdempotent` | src/app/api/chat.ts:54-56 | Trimming twice is trimming once, so trimming the payload again never changes a trimmed payload |
| `Strings.TrimEndKeepsPrefix` | src/app/api/chat.ts:54-56 | A prefix ending in a non-whitespace character survives `trim` of what follows it |
| `Strings.TrimDropsTrailingSpace` | src/app/api/chat.ts:54 | A trailing whitespace character (such as the `\r` of a CRLF line) does not change the trimmed line |
| `Strings.TrimDropsLeadingSpace` | src/app/api/chat.ts:56 | A leading whitespace character (such as the space after `data:`) does not change the trimmed payload |
| `Strings.Split` | src/app/api/chat.ts:52 | `split('\n')` yields at least one piece, and no piece contains `'\n'` |
| `Strings.JoinLinesAppend` | src/app/api/chat.ts:52 | Joining lines with their terminators distributes over concatenation of the line lists |
| `Strings.SplitJoin` | src/app/api/chat.ts:52 | Splitting loses nothing: the complete lines, each with its `'\n'` restored, followed by the fragment, give back the text |
| `Strings.SplitLineFree` | src/app/api/chat.ts:52 | A text without `'\n'` prefixes the first piece of whatever follows it |
| `Strings.SplitOfJoin` | src/app/api/chat.ts:52 | Splitting undoes joining: the inverse of `SplitJoin` |
| `Strings.SplitAppend` | src/app/api/chat.ts:51-52 | Splitting `a + b` gives the complete lines of `a`, then the split of `a`'s fragment followed by `b`. This is why a carried fragment hides read boundaries |
| `Strings.CompleteLinesAppend` | src/app/api/chat.ts:51-52 | The complete lines and the fragment of a concatenation, in terms of the first part's fragment |
| `Strings.NoCompleteLine` | src/app/api/chat.ts:52 | A text without `'\n'` has no complete line and is its own fragment |
| `Strings.Decimal` | src/app/chat.service.ts:44 | `${status}` renders digits only, with no leading zero, and their decimal value is the status |
| `Sse.DataPayload` | src/app/api/chat.ts:54-56 | The payload of one line: none unless the trimmed line starts with `data:`, otherwise what follows those five characters, trimmed again. `DataPayloadSpec` states it as an if-and-only-if |
| `Sse.DataPayloadSpec` | src/app/api/chat.ts:54-56 | A line has a payload exactly when its trimmed form starts with `data:`. The payload has no surrounding whitespace and is shorter than the line |
| `Sse.BlankLineHasNoPayload` | src/app/api/chat.ts:54-55 | An all-whitespace line (the separator between events, or a keep-alive) has no payload |
| `Sse.DataFieldPayload` | src/app/api/chat.ts:55-56 | `data:` followed by any text yields that text, trimmed |
| `Sse.SpacedDataFieldPayload` | src/app/api/chat.ts:55-56 | The wire form `data: <json>` yields the JSON text itself |
| `Sse.CarriageReturnIgnored` | src/app/api/chat.ts:52-54 | A CRLF line ending leaves the payload as with LF alone |
| `Relay.LineAction` | src/app/api/chat.ts:54-65 | The relay's treatment of one complete line. A line without a payload is skipped, and `[DONE]` stops. A payload whose parsed content is a non-empty string emits that content. Anything else (unparseable, missing or empty content) is skipped, as the swallowed exception at line 65 does |
| `Relay.Translate` | src/app/api/chat.ts:53-66 | The line loop of one read as a value: the events of the lines in order, ending at the first line that stops. `TranslateWellFormed` and `TranslateAppend` state its properties |
| `Relay.Step` | src/app/api/chat.ts:51-66 | One read: the buffer plus the chunk, cut into complete lines and a new buffer, with the lines' translation. `StepKeepsText` states the buffer invariant |
| `Relay.Run` | src/app/api/chat.ts:44-72 | The events of the whole read loop: each read's events in turn, ending at a stop, else the terminal event of the upstream's end. `Pump` is proved to write exactly this |
| `Relay.Relayed` | src/app/api/chat.ts:47-72 | The reference meaning on the whole text: the translation of its complete lines, then the terminal event unless `[DONE]` came first. `RunMatchesReference` ties `Run` to it |
| `Relay.Terminal` | src/app/api/chat.ts:67-72 | The terminal event is `done` exactly for a normal end. Otherwise it is an error with a non-empty message (`'stream error'` for an empty one) |
| `Relay.TranslateWellFormed` | src/app/api/chat.ts:53-66 | A batch of lines stops exactly when one of them is `[DONE]`. It writes only deltas, followed by `done` when it stops. Under the relay's rule no delta is empty, and there are never more events than lines |
| `Relay.TranslateAppend` | src/app/api/chat.ts:53-66 | Handling two batches in a row: the second counts only when the first did not stop |
| `Relay.StepKeepsText` | src/app/api/chat.ts:47-52 | Buffer invariant of one read: the old buffer plus the chunk equals the extracted lines, each with its `'\n'` restored, followed by the new buffer. Neither the lines nor the new buffer contain `'\n'` |
| `Relay.Writer.constructor` | src/app/api/chat.ts:39-40 | A new writer is open and has written nothing |
| `Relay.Writer.Write` | src/app/api/chat.ts:58 | A write appends one event to an open writer |
| `Relay.Writer.Close` | src/app/api/chat.ts:59 | Closing an open writer closes it and writes nothing |
| `Relay.HandleLine` | src/app/api/chat.ts:54-65 | One line writes what the relay's rule says: nothing, a delta, or `done`. The writer is closed exactly when the line was `[DONE]` |
| `Relay.HandleLines` | src/app/api/chat.ts:53-66 | The line loop writes the batch's translation and is closed exactly when the batch stopped |
| `Relay.ReadOnce` | src/app/api/chat.ts:51-66 | One read writes the events of `Step` and keeps `Step`'s fragment as the new buffer |
| `Relay.Pump` | src/app/api/chat.ts:44-74 | The read loop writes exactly `Run` of the reads and always ends with the writer closed |
| `Relay.RunMatchesReference` | src/app/api/chat.ts:47-53 | However the text is cut into reads, the relay writes the events of the whole text's complete lines, then the terminal event unless `[DONE]` came first |
| `Relay.RelayedStep` | src/app/api/chat.ts:47-53 | The whole-text meaning advances one read at a time: the read's own events, then, unless the read met `[DONE]`, the meaning of the new buffer followed by the rest of the text |
| `Relay.ChunkingInvariance` | src/app/api/chat.ts:47-53 | Two ways of cutting the same text into reads give the same events |
| `Relay.RelayedShape` | src/app/api/chat.ts:57-72 | A relayed stream is deltas followed by exactly one terminal event. That event is `done` exactly when `[DONE]` was read or the upstream ended normally. With the relay's rule, no delta is empty |
| `Relay.RelayRuleEmitsContent` | src/app/api/chat.ts:63-64 | The relay's rule never asks for an empty delta |
| `Relay.TrailingFragmentIgnored` | src/app/api/chat.ts:52 | The unterminated fragment after the last `'\n'` is never processed |
| `Relay.SkippedLineIsInvisible` | src/app/api/chat.ts:55 | Removing a line that is skipped (not `data:`, unparseable, or without content) does not change what is written |
| `Relay.DeltaLineEmits` | src/app/api/chat.ts:62-64 | A content line writes its delta right after what the earlier lines wrote, and later lines still count |
| `Relay.DoneStopsBatch` | src/app/api/chat.ts:57-59 | A batch stops at its first `[DONE]` line, with `done` after what the earlier lines wrote |
| `Relay.DoneEndsStream` | src/app/api/chat.ts:57-59 | After `[DONE]` nothing more is written. Later lines and the way the upstream ends do not matter |
| `Relay.DoneLineStops` | src/app/api/chat.ts:57 | `data: [DONE]` stops the relay |
| `Relay.ContentLineEmits` | src/app/api/chat.ts:61-64 | `data: <json>` with non-empty content emits exactly that content, untrimmed |
| `Relay.ContentlessLineSkipped` | src/app/api/chat.ts:61-65 | An unparseable payload, missing content or empty content is dropped without an error |
| `Relay.NonDataLineSkipped` | src/app/api/chat.ts:55 | Blank lines, comments and other fields are dropped |
| `Relay.HiThenDone` | src/app/api/chat.ts:44-74 | A content line carrying `Hi`, a blank line and `[DONE]` give the events `Hi` then `done`, however the upstream ends |
| `Relay.HiThenDoneSplitRead` | src/app/api/chat.ts:47-53 | The same exchange, with the first read ending inside the JSON, gives the same events |
| `Gateway.Gate` | src/app/api/chat.ts:4-36 | The checks made before streaming, in the code's order. A non-POST gets 405, a missing key 401, and a `null` body throws. A non-array `messages` gets 400, and a rejected `fetch` throws. An answer without a usable body is mirrored, or throws when its status cannot carry a body. Otherwise the upstream body is streamed |
| `Gateway.UpstreamRequest` | src/app/api/chat.ts:21-29 | The outbound request: the chat completions URL, JSON content type, the key as a bearer token, the title, the model `openai/gpt-4o`, the messages as given and `stream: true` |
| `Gateway.StreamsExactlyWhenAccepted` | src/app/api/chat.ts:4-36 | The handler streams if and only if all of these hold: the method is POST, the key is set, `messages` is an array (or the body is unreadable), and the upstream answered ok with a body. What it streams is the upstream body |
| `Gateway.MethodCheckedFirst` | src/app/api/chat.ts:4 | Any method but POST gets 405 `POST only`, whatever the key and body |
| `Gateway.MissingKeyRefused` | src/app/api/chat.ts:6-12 | A POST without a key gets 401 with the JSON error, whatever its body |
| `Gateway.RefusalsPrecedeFetch` | src/app/api/chat.ts:4-21 | The refusals do not depend on the upstream: `fetch` is reached only after every check has passed. A refusal has status 400, 401 or 405 |
| `Gateway.UnreadableBodyIsEmptyMessages` | src/app/api/chat.ts:14 | A body that is not JSON is treated exactly as `{ "messages": [] }` |
| `Gateway.ForwardsMessagesUnchanged` | src/app/api/chat.ts:21-29 | The upstream receives the key as a bearer token and the client's messages unchanged, with streaming on |
| `Gateway.UpstreamFailureMirrored` | src/app/api/chat.ts:31-36 | An upstream answer that is not ok is returned with its own status and text, as JSON. When the `Response` constructor refuses that status with a body, the handler throws instead |
| `Gateway.BodilessAnswerMirrored` | src/app/api/chat.ts:31-35 | An ok answer without a body is mirrored with its status and text, except a 204 or 205, for which the handler throws |
| `Gateway.Handle` | src/app/api/chat.ts:4-82 | A refusal becomes a plain answer, and a throw becomes a failure. An accepted request becomes a 200 `text/event-stream` response whose events are `Relayed` of the upstream text. Only that path writes events |
| `ChatStore.Initial` | src/app/chat.service.ts:10-12 | The history starts as one system message with the fixed prompt |
| `ChatStore.Copy` | src/app/chat.service.ts:29 | The API copy has the same length, and the same role and content at every position |
| `ChatStore.Appended` | src/app/chat.service.ts:79-85 | The target is `index` when it is not negative, otherwise the last position. When the target exists and is an assistant message, its content gains `delta` at the end; when it is out of range or not an assistant message, nothing changes. Length, roles and every other message are unchanged |
| `ChatStore.Target` | src/app/chat.service.ts:81 | The position `appendToAssistant` edits: `index` when it is not negative, otherwise the last position |
| `ChatStore.AppendedTwice` | src/app/chat.service.ts:62 | Two appends to the same message are one append of both texts |
| `ChatStore.AppendedToLast` | src/app/chat.service.ts:79-84 | Index -1 names the last message: an assistant message at the end gains the text, and the messages before it stay as they were |
| `ChatStore.StatusError` | src/app/chat.service.ts:43-44 | The message thrown for a response that is not ok or has no body: `Network/SSE error: `, the status in decimal, a space, the status text. `StatusErrorOf404` and `Decimal` pin it |
| `ChatStore.LineDelta` | src/app/chat.service.ts:55-63 | The client's reading of one piece. It gives nothing for a line that is not `data:`, for `[DONE]`, or for an unparseable payload or a missing `delta`; otherwise the `delta` text, untrimmed |
| `ChatStore.ChunkText` | src/app/chat.service.ts:54-64 | The text one read contributes: the client's reading of every piece of its own `split('\n')`, in order, the last piece included |
| `ChatStore.ChunksText` | src/app/chat.service.ts:50-65 | The text all reads contribute: each read's text in order, with nothing carried from one read to the next |
| `ChatStore.AssistantText` | src/app/chat.service.ts:32-71 | The content of the message `ask` pushes. A network failure gives `\n(error) ` and its message. A response that is not ok, or has no body, gives `\n(error) ` and `StatusError`. A stream gives its reads' text, then the `(error)` note when a read throws. `Ask` is proved to produce exactly this |
| `ChatStore.StatusErrorOf404` | src/app/chat.service.ts:43-45 | A 404 answer reads `Network/SSE error: 404 Not Found` |
| `ChatStore.LinesTextAppend` | src/app/chat.service.ts:54-64 | The text of consecutive lines is the text of each part, in order |
| `ChatStore.ClientRuleSilent` | src/app/chat.service.ts:55-58 | `data: [DONE]` and blank lines contribute nothing |
| `ChatStore.DoneLineSkipped` | src/app/chat.service.ts:58 | The client does not stop at `[DONE]`: lines after it still count |
| `ChatStore.DeltaLineContributes` | src/app/chat.service.ts:59-62 | A `data:` line whose `delta` is a string contributes exactly that text, untrimmed |
| `ChatStore.AlignedChunksMatchWholeText` | src/app/chat.service.ts:50-64 | When every read ends with `'\n'`, reading chunk by chunk gives the text of the whole stream's complete lines |
| `ChatStore.SplitDataLineIsLost` | src/app/chat.service.ts:53-54 | A `data:` line cut across two reads contributes nothing, while the same text in one read contributes `Hi` |
| `ChatStore.ChatService.constructor` | src/app/chat.service.ts:10-16 | A new service holds the initial history and is not loading |
| `ChatStore.ChatService.BuildMessagesForAPI` | src/app/chat.service.ts:28-30 | The posted messages match the history in length and in role and content at every position |
| `ChatStore.ChatService.Clear` | src/app/chat.service.ts:24-26 | `clear` restores the initial history and leaves `loading` alone |
| `ChatStore.ChatService.PushAssistantFull` | src/app/chat.service.ts:73-77 | Appends one assistant message and returns its index, the new length minus one |
| `ChatStore.ChatService.AppendToAssistant` | src/app/chat.service.ts:79-85 | The history becomes `Appended` of the old one, and `loading` is unchanged |
| `ChatStore.ChatService.HandlePiece` | src/app/chat.service.ts:55-63 | One piece appends the client's reading of it to the message at the start index: nothing for a line that is not `data:`, for `[DONE]`, or for an unparseable or empty `delta`. Nothing else changes |
| `ChatStore.ChatService.HandleChunk` | src/app/chat.service.ts:53-64 | The text of every piece of one read, the last included, is appended to the message at the start index, and nothing else changes |
| `ChatStore.ChatService.ReadStream` | src/app/chat.service.ts:50-65 | The read loop appends the text of every read, each read split on its own, in order, to the message at the start index. Nothing else changes |
| `ChatStore.ChatService.Ask` | src/app/chat.service.ts:32-71 | `ask` posts the history with a new empty assistant message at its end. Afterwards the history is the old one plus one assistant message whose content is `AssistantText` of the reply (its deltas, then `\n(error) ` and the message on any failure), and `loading` is false |
| `ChatStore.ChatService.AddUserMessage` | src/app/chat.service.ts:18-22 | The user's message is appended after all earlier messages, then `ask` adds the assistant's reply after it |
| `EndToEnd.Frame` | src/app/api/chat.ts:58-71 | One written event: `data: `, the event's JSON, and a blank line. `FrameShown` states what the client reads from it |
| `EndToEnd.FrameShown` | src/app/chat.service.ts:53-62 | One relay frame read on its own shows its delta's text, and nothing for `done` or an error |
| `EndToEnd.ClientShowsDeltas` | src/app/api/chat.ts:64-71 | When each client read is one relay frame, the client's text is exactly the relayed deltas, in order |
| `EndToEnd.AskShowsDeltas` | src/app/chat.service.ts:32-71 | A 200 reply whose reads are the relay's frames, one frame per read, gives an assistant message holding exactly the deltas |
| `EndToEnd.RelayedDeltasIgnoreEnd` | src/app/api/chat.ts:67-72 | The relayed deltas do not depend on how the upstream ended |
| `EndToEnd.RelayErrorInvisible` | src/app/api/chat.ts:70-72 | When each client read carries one relay frame, an upstream failure that the relay reports as an `{error}` event never reaches the user: the client shows only the deltas, with no `(error)` note |

## Left out

- Asynchrony. The detached `async` function of `chat.ts:44-74` and the `await` points of `ask` are run to completion in sequence. There is no backpressure, cancellation or client disconnect. `Handle` returns its response after the relay has finished, whereas the code returns it at once and streams into it.
- Interleaving. A second `ask` or a `clear` that runs while an `ask` is waiting is not modelled. In the model, the `(error)` note of `ask` therefore always lands on the message `ask` pushed.
- The `loading` flag while `ask` waits. The model states only the initial value and the final `false`. The intermediate `true` is visible only across `await` points.
- Writer failures. A `writer.write` or `writer.close` that rejects (a client that disconnected) is not modelled. In the code, a rejected delta write (`chat.ts:64`) is swallowed by the inner `catch` at line 65, and reading goes on. A rejected `done` write or `close` (lines 58-59 and 68-69) goes to the outer `catch` at line 70.
- `TextDecoder`. Reads are already-decoded strings, so a multi-byte character split across reads is not modelled.
- JSON. `JSON.parse`, the member lookups and `JSON.stringify` are parameters: `parse` on both sides, and `encode` in `EndToEnd`, related by the predicate `Agree`. A content or `delta` member that is a non-string truthy value (such as a number) is not modelled.
- The outbound request body. `{ model, messages, stream }` is kept as fields of `Outbound`, not as serialised JSON.
- The `connection: keep-alive` header of the event-stream response is not modelled. Its content type and cache control are kept.
- `await upstream.text()` rejecting is not modelled.
- What the hosting platform answers when the handler throws. This is `Failed`, with no status.
- `history$` and `loading$`. These `BehaviorSubject` observables are fields that the methods reassign.
- Not part of this model:
  - `api/chat.ts`, a second proxy variant with CORS headers;
  - `api/chat-test.ts`, a non-streaming wrapper;
  - the Angular files `src/app/pages/chat/chat.ts`, `src/app/app.ts` and `src/main.ts`, which are UI and bootstrap.
