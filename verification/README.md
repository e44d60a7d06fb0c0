# Conversation streaming core, modelled in Dafny

This project models the conversation endpoint of the AI student advisor
backend. The endpoint is `POST /api/conversation`. It streams a language-model
agent's progress to the client as server-sent events and keeps the chat history
in two tables:

- the session index `chatHistory/historySessions` (`id → {id, dateTime, title}`);
- the message log `chatHistory/historySession` (`id → messages`).

It also models the two session stores the repository contains: the in-memory
`SessionManager` registry and the older list-based server in `backend/session.ts`.

With I/O taken out, everything is deterministic.

- `Conversation.HandlePost` is a pure function. Its inputs are the tables as read
  at the start of the request, the parsed request, the session id the session
  manager would generate, the timestamp, the agent's `isChatEnabled()` flag, the
  agent's run, and the UUIDs drawn for assistant messages.
- It returns the ordered list of effects the handler performs. An effect is a
  frame sent (`Send`) or a whole table replaced (`Store`). `Apply` replays the
  writes to give the tables afterwards.
- The agent's run is the sequence of statuses it yields (pending, started,
  error, success, done). If the agent then throws, the run also records the
  error's reason.

Modules, one per concern:

- `base.dfy`: `Option` and `Result`.
- `json.dfy`: the part of `JSON.stringify` the frames need (string quoting per
  section 25.5.2.3 of ECMA-262, compact objects).
- `sse.dfy`: the frame text written by `writeSseMessage` and a parser for a
  stream of such frames. The framing follows section 9.2 of the WHATWG HTML
  Living Standard.
- `protocol.dfy`: agent statuses, messages, the `PostResponse` payloads and their
  JSON form.
- `conversation.dfy`: `query`, final-message selection and `handleConversationPost`.
- `sessions.dfy`: `Session` and `SessionManager` from `backend/server/Sessions.ts`.
- `legacy_session.dfy`: `findSession`, the record builders and the
  session-resolution branch of `backend/session.ts`.

Behaviour of the handler worth noting:

- An unknown session id is not rejected at the HTTP level. The handler has
  already written status 200 and its headers. The `HTTPError(400, "Invalid session ID")`
  is caught like any other error and becomes a failure frame.
- The final message is the last `success`/`message` response in the stream.
  The loop overwrites `finalMessage` on every message response.
- An `id` equal to the empty string is falsy in `id ? … : false` and in
  `id && …` (`src/api/Conversation.ts:81-104`), so those lines treat it like no
  id (`Conversation.Supplied`). The empty string is also passed on to
  `sessionManager.getSession`, which is external. The model assumes the
  session manager treats it as absent too and creates a session under `newId`.
- The index can hold an id whose message log is missing, which is the gap
  between the two tables. Reading that log's `messages` then throws a
  `TypeError`. The request gets one failure frame and no table is written
  (`Conversation.IndexedButNoLog`).
- The status enumeration is the five-valued one that `query` switches on.

## Model

| member | source | states |
|---|---|---|
| Json.EscapeChar | src/api/Conversation.ts:134 | `JSON.stringify` writes a character as itself exactly when it is not a control character, quote or backslash. Every other character is written as an escape of at least two characters starting with a backslash: `\"` for a quote, `\\` for a backslash, `\n` for a line feed. The output never contains a control character. |
| Json.Stringify | src/api/Conversation.ts:134 | The serialised text of any value contains no character below U+0020, so it has no line break. |
| Protocol.Encode | src/api/Conversation.ts:134 | `JSON.stringify(postResponse)` is a single line, whatever text the agent or the user supplied. |
| Protocol.ResponseJson | src/api/Conversation.ts:168-229 | Every response object has `status` as its first member, `"fail"` for a failure and `"success"` otherwise. |
| Protocol.SignalNameInjective | src/api/Conversation.ts:186-227 | The three control signals have three distinct wire names. |
| Protocol.ResponseJsonInjective | src/api/Conversation.ts:168-229 | Two responses have the same JSON object exactly when they are the same response. |
| Sse.Frame | src/api/Conversation.ts:238-242 | The frame for data `d` is exactly `"event: message\n"`, then `"data: " + d + "\n"`, then `"\n\n"`. |
| Sse.ParseFrames | src/api/Conversation.ts:238-242 | A concatenation of frames whose payloads have no line feed parses back into exactly those payloads, in order. |
| Sse.FrameRoundTrip | src/api/Conversation.ts:238-242 | A single frame's payload is recoverable from its data line when the payload has no line feed. |
| Conversation.Respond | src/api/Conversation.ts:179-231 | PENDING, STARTED and DONE become control responses `generation-pending`, `generation-started` and `generation-done`. ERROR becomes a fail response with the agent's error. SUCCESS becomes a message response with role assistant, empty username, the agent's output and the fresh UUID. Every success-shaped response carries the session id. |
| Conversation.QueryFrom | src/api/Conversation.ts:178-232 | One response per agent status, in the same order. |
| Conversation.Query | src/api/Conversation.ts:163-236 | A disabled agent yields exactly `[fail "Chat agent is not available"]`. An enabled one yields one response per status, in order. |
| Conversation.FinalMessageFrom | src/api/Conversation.ts:132-141 | The loop variable ends as the message of the last message response, or stays at its initial value if there is none. |
| Conversation.FinalMessage | src/api/Conversation.ts:132-141 | The final message is absent exactly when the stream has no message response. Otherwise it is the message of the last one. |
| Conversation.Created | src/api/Conversation.ts:104-112 | A new session adds index entry `{id, dateTime, "New Chat"}` and an empty log. Every other id's entries are unchanged. |
| Conversation.Append | src/api/Conversation.ts:125 | The session's log gains the message at its end. Every other id's log is unchanged. |
| Conversation.SentIsFilter | src/api/Conversation.ts:133-134 | The frames sent are the `Send` effects: each one's response is among them, and nothing else is. |
| Conversation.StoredIsFilter | src/api/Conversation.ts:113-148 | The writes are the `Store` effects: each one's table value is among them, and nothing else is. |
| Conversation.Apply | src/api/Conversation.ts:113-148 | Replaying the writes, each `database.set` replacing one whole table; how it composes is stated by `Conversation.ApplyAppend`. |
| Conversation.ApplyAppend | src/api/Conversation.ts:113-148 | Performing two runs of writes one after the other leaves the same tables as performing their concatenation. |
| Conversation.StreamWritesLast | src/api/Conversation.ts:132-149 | The final-message write comes after every frame: once a write occurs in the streaming effects, only writes follow. |
| Conversation.StreamEffects | src/api/Conversation.ts:132-149 | Streaming sends `query`'s responses, plus one failure if the agent threw. It writes the log at most once, and only to append the final message. |
| Conversation.Supplied | src/api/Conversation.ts:81-85 | JavaScript truthiness of `id`: present and not the empty string; the behaviour it selects is stated by `Conversation.UnknownIdRejected`, `Conversation.ExistingSession` and `Conversation.NewSession`. |
| Conversation.Rejected | src/api/Conversation.ts:85-88 | The throwing condition `id && !sessionIdExist`; its outcome is stated by `Conversation.UnknownIdRejected`. |
| Conversation.UnknownIdRejected | src/api/Conversation.ts:81-88 | A supplied id absent from the index gives exactly one frame, `fail "Invalid session ID"`, and no write to either table. |
| Conversation.NewSession | src/api/Conversation.ts:103-149 | Without an id, the writes are, in order: the index with the new entry; the log with `[]`; the log with `[user message]`. The tables end with the new index entry and the log `[user] + kept`. All other ids are unchanged. The frames are the stream's. |
| Conversation.ExistingSession | src/api/Conversation.ts:125-149 | With a known id, the first write is the log with `old + [user message]`. The index is untouched. The log ends as `old + [user] + kept`. The frames are the stream's. |
| Conversation.IndexedButNoLog | src/api/Conversation.ts:125 | An id in the index but not in the log throws when the log is read. The result is one failure frame and no write. |
| Conversation.UserMessageStoredFirst | src/api/Conversation.ts:125-133 | For every accepted request, the log with the user message appended is written before any frame is sent, so before the agent is consulted. |
| Conversation.DisabledRun | src/api/Conversation.ts:167-174 | A disabled agent streams only the unavailability failure and keeps no assistant message. |
| Conversation.DisabledAgentKeepsUserMessage | src/api/Conversation.ts:125-133 | With a disabled agent the request sends one frame, `fail "Chat agent is not available"`. The session's log still ends as the old log followed by the user message. |
| Conversation.FaultEndsWithOneFailFrame | src/api/Conversation.ts:150-156 | Each error the handler catches ends the stream with exactly one failure frame carrying the error's reason. The errors are an unknown id, a missing log and an agent that throws. Frames already streamed stay before it. |
| Conversation.FinalOfQueryPresent | src/api/Conversation.ts:206-220 | An enabled agent's stream has a final message exactly when the agent reported a SUCCESS. |
| Conversation.FinalOfQueryIsLast | src/api/Conversation.ts:132-141 | When the agent reported a SUCCESS, the final message exists and is the assistant message built from the last SUCCESS status. |
| Conversation.KeptIsLastSuccess | src/api/Conversation.ts:142-149 | When the agent does not throw, the log gains at most one assistant message after the user message. It gains one exactly when there was a SUCCESS, and it is built from the last one. |
| Conversation.QueryFromPreserves | src/api/Conversation.ts:178-231 | `query` emits as many message responses as SUCCESS statuses and as many failures as ERROR statuses. Its control signals are the agent's progress statuses in order. |
| Conversation.QueryPreserves | src/api/Conversation.ts:163-236 | The same counts and signal order hold for the whole stream of an enabled agent. |
| Conversation.AgentErrorStreamsOneFailure | src/api/Conversation.ts:200-205 | If the agent keeps its contract (at most one SUCCESS or one ERROR), a request streams at most one message response. If it reports an ERROR, the request streams exactly one failure and no message response, and the log keeps only the user message. |
| Conversation.Stream | src/api/Conversation.ts:132-149 | The streaming part of the handler; its frames and writes are stated by `Conversation.StreamEffects`. |
| Conversation.Continue | src/api/Conversation.ts:124-149 | Appending the user message and streaming, after any new-session writes; its behaviour is stated by `Conversation.NewSession`, `Conversation.ExistingSession` and `Conversation.IndexedButNoLog`. |
| Conversation.HandlePost | src/api/Conversation.ts:61-156 | `handleConversationPost`; its behaviour is stated by `Conversation.NewSession`, `Conversation.ExistingSession`, `Conversation.UnknownIdRejected`, `Conversation.IndexedButNoLog` and `Conversation.FaultEndsWithOneFailFrame`. |
| Conversation.TranscriptParses | src/api/Conversation.ts:133-134 | Splitting the bytes written for a request back into frames gives the JSON of every response sent, in order. |
| Sessions.NewSession | backend/server/Sessions.ts:10-14 | The constructor copies `id`, `chatAgent` and `response` from the configuration unchanged. |
| Sessions.Empty | backend/server/Sessions.ts:26 | A fresh manager finds no session. |
| Sessions.GetSession | backend/server/Sessions.ts:35-37 | A lookup finds a session exactly when its id is stored. If every session is stored under its own id, the session found carries the id asked for. |
| Sessions.GetNewSession | backend/server/Sessions.ts:29-33 | After creation, looking up the configuration's id returns the new session. Every other lookup is unchanged. The key set gains exactly that id. The keyed-by-own-id invariant is kept. |
| Sessions.DeleteSession | backend/server/Sessions.ts:39-41 | After deletion the id is not found. Every other lookup is unchanged. Deleting an absent id changes nothing. |
| Sessions.ReplaceOnConflict | backend/server/Sessions.ts:29-33 | Creating a session with an id already stored replaces the stored session and does not add a second one. |
| Sessions.RunMatchesExpected | backend/server/Sessions.ts:26-41 | After any sequence of create and delete calls, a lookup gives what the last call concerning that id decided. |
| Sessions.NeverCreated | backend/server/Sessions.ts:35-37 | An id that was never created is never found. |
| Sessions.DeletedSince | backend/server/Sessions.ts:39-41 | An id deleted and not created again since is not found. |
| LegacySession.Find | backend/session.ts:148-156 | The result is in `[-1, |sessions|)`. A non-negative result is the first index with the id. The result is -1 exactly when no record has the id. |
| LegacySession.FindSession | backend/session.ts:148-156 | The imperative forward search with early return has the same result. |
| LegacySession.GetNewSession | backend/session.ts:104-117 | Creation fails with "Create new session failed: session id confilct." exactly when the generated id is already in the list. Otherwise it returns a message-type success record for that id with no message, control or agent. |
| LegacySession.GetErrorSession | backend/session.ts:119-126 | The failure record's reason is the error's message. |
| LegacySession.GetNewMessage | backend/session.ts:128-136 | The message has role assistant, content type "message", content equal to the response and the generated id. |
| LegacySession.Resolve | backend/session.ts:25-49 | A request without id gets a new session exactly when the generated id is not in the list. That session is the empty message-type record for the id, appended to the list. On a conflict nothing is selected, the one failure written is "Create new session failed: session id confilct." and the response ends with "ERROR". A request with an id selects the first record with that id. Whenever a session is selected, the resolution branch leaves the response open. An unknown id writes one failure "Cannot find the conversation.", selects nothing and ends the response with "ERROR". |
| LegacySession.ResolvePreservesDistinct | backend/session.ts:25-29 | Resolving a request keeps the ids in the list pairwise distinct. The list grows by exactly one record or not at all. |
| LegacySession.ServeAllPreservesDistinct | backend/session.ts:25-49 | Over any sequence of requests, ids stay pairwise distinct and the list is only ever appended to. |

## Left out

- Express wiring is not modelled: the route registration, the JSON middleware, the response headers, the `close` listener and `response.end()`. These are transport calls with no logic of their own.
- Request and response schema validation (`PostRequestSchema.parse`, `PostResponseSchema.parse`) is taken as the identity on well-formed values. A malformed request body is not modelled.
- `database.get` and `database.set` are modelled as map reads and whole-table replacements that always succeed. A failing write, and the state it would leave, is not modelled.
- `parseError` is not part of this model. Its result is taken to be the error's message. For the missing-log `TypeError` that is V8's message text.
- `sessionManager.getSession` with its user lookup is external. The model takes the resolved session id to be the supplied id when it is non-empty, and otherwise the `newId` parameter; for an empty id this assumes the session manager treats it as absent.
- `crypto.randomUUID`, `uuidv4` and `new Date().toISOString()` are parameters. The UUIDs are indexed by the position of the status that needs them.
- The agent itself is a parameter: `ChatAgent.prepareInput` and the language-model call are reduced to its run of statuses.
- JSON member order follows the object literals in the handler. The order the response schema would impose is not visible.
- `JSON.stringify` on lone surrogate code units is not modelled, because Dafny characters are Unicode scalar values.
- Overlapping requests are not modelled, on the same session or on different ones. Each table is one record at a fixed path, and every write puts back the whole table as this request read it (`src/api/Conversation.ts:70-79`, 113-122, 126-130, 144-148). So one request can erase another's writes. The properties that every other id is unchanged (`Conversation.Created`, `Conversation.Append`, `Conversation.NewSession`, `Conversation.ExistingSession`) hold for a request running alone.
- LegacySession.Resolve: the response is left open only by the resolution branch. Lines 50-52 of `backend/session.ts` then install the test agent. Lines 94-98 end the response with "ERROR" when `query.message` is missing. Neither is modelled.
- The `setInterval` polling loop, the stub test agent and `res.end("OK")` in `backend/session.ts` are not modelled. They are timer-driven and test code.
- `Session.setupChatAgent` awaits external agent construction, so it is not modelled. `Session.getChatAgent` is a field read.
- `src/config/keys.ts`, `backend/core/App.ts` and `backend/core/types/ai/AITypes.ts` are configuration, bootstrap and type declarations with no behaviour of the core.
- Conversation.UnknownIdRejected: the tables are modelled as maps without the keys a JavaScript object inherits. For an id such as `toString` or `constructor`, the lookup at `src/api/Conversation.ts:82` finds the inherited property. That request then fails at line 125 with a `TypeError` rather than "Invalid session ID". It still sends one failure frame and writes nothing.
- Logging is not modelled: the `logger` calls in `src/api/Conversation.ts` and the `console.log` in `backend/session.ts` write only to the process log.
- LegacySession.ServeAllPreservesDistinct: records are modelled as values, and the in-place updates after resolution are not modelled. In the source the list holds shared objects. `backend/session.ts:50` sets `chatAgent` on the selected record, and the polling loop later rewrites its `type`, `control` and `message` (lines 64-67, 73, 83-86). So the stored records do not stay equal to the ones resolution produced, and the prefix equality holds for the model only. No code writes `id` after creation, so the ids stay pairwise distinct in the source too.
- Protocol.ResponseJsonInjective: injectivity is proved for the JSON objects, not for the text `JSON.stringify` produces from them.
- Conversation.QueryPreserves: the protocol property that control signals follow the order pending, started, done holds only if the agent reports its statuses in that order. The handler does not enforce that order. The model proves that the signals are exactly the agent's progress statuses in the agent's order.
