# Chat client core in Dafny

This project models the part of a web chat client that turns a streamed server
reply into transcript entries. It has four parts:

- **The event-stream decoder behind `sendChatMessage`.** It keeps a text buffer and
  appends each decoded chunk to it. It cuts the buffer at every `"\n\n"` and turns
  each event into message content: a `data:` line loses its prefix and leading
  whitespace, any other non-blank line is kept as it is, blank lines are dropped,
  and the result is right-trimmed. At the end of the stream a non-blank leftover
  buffer is delivered raw, and `onDone` fires with the session id passed in. The
  error guards are modelled too: no token, a rejected fetch, a non-ok response, no
  readable body, and a read failure.
- **The chat provider's state** (`messages`, `sessionId`, `isLoading`). The send
  handler has an admission guard, appends a user entry and then an empty assistant
  placeholder, streams the reply into the placeholder, adopts the session id on
  `onDone`, and clears `isLoading` whatever happens. There is also the new-chat
  reset and the loading of a stored session's history.
- **The chat page.** It covers the page's own copy of the send handler, the submit
  guard, the key dispatch, and the New Chat button. Each handler works with the
  text box, loading flag and session that its render saw.
- **JavaScript string operations** (`trim`, `trimStart`, `trimEnd`, `startsWith`,
  `split("\n")`), as functions on `seq<char>`.

Modules:

| file | module | models |
|---|---|---|
| `wrappers.dfy` | `Wrappers` | `Option` |
| `js_string.dfy` | `JsString` | the string built-ins the code calls |
| `event_stream.dfy` | `EventStream` | `src/app/api/chat.ts`, `sendChatMessage` |
| `transcript.dfy` | `Transcript` | the message record, the chunk updater, the history expansion |
| `chat_context.dfy` | `ChatContext` | `src/app/context/ChatContext.tsx`, class `ChatState` |
| `chat_page.dfy` | `ChatPage` | `src/app/chat/page.tsx`, class `Page` |

The decoder's specification is a pure function: `Frames(text)` splits a text into
its complete events and the unterminated rest. The class `EventStream.Decoder`
holds the mutable `buffer` and ghost fields `received` (all text fed so far) and
`frames` (all events cut so far). Its invariant `Valid()` says that
`Frames(received) == Framing(frames, buffer)`. `Feed` keeps it. The drain loop,
`Decoder.Drain`, is proved against `Frames`: it cuts off exactly the events of the
buffer and leaves exactly its rest.

Things outside the program become inputs:

- the stored token;
- the server's response, given as a list of already-decoded chunks that ends
  normally or with a read error;
- the clock readings;
- the fetched session history.

The callbacks that `sendChatMessage` invokes are returned as an ordered trace
(`ChatContext.SendTrace`). The state writes those callbacks make are then replayed
in order (`ChatContext.Replay`).

`handleSendMessage` appears twice in the source, once in the provider and once in
the page:

- The provider's copy runs one send from start to end, so it is modelled as one
  method, `ChatContext.ChatState.SendMessage`.
- The page's copy is modelled in two parts, because two sends can overlap:
  - `ChatPage.Page.StartSend` runs up to the `await`: it sets loading, appends the
    two entries and sends the request.
  - `ChatPage.Page.Settle` runs what follows once the handler has returned: the
    callbacks, then the `finally`.

Plain names for the expressions the code uses:

- `ChatContext.SessionArg` is `sessionId || 0`.
- `Transcript.EntryId` is `msg.id || Date.now()`.
- `Transcript.UserEntry` and `Transcript.AssistantEntry` are the two `ChatMessage`
  literals of a send.
- `ChatContext.Exchange` is the pair of entries a finished send leaves.
- `EventStream.OnMessages` is the `onMessage` part of the callback trace.

Three behaviours of the code are proved:

- **Ctrl+Enter without Shift reaches `handleSubmit` twice from the same render**
  (`ChatPage.Page.HandleKeyDown`).
  - Both calls see the same text and a false loading flag, so both sends are
    admitted.
  - Both sends append their user entry and placeholder before either reply arrives.
  - The chunk updater always writes to the last entry. So the first placeholder
    stays empty, and the second one collects the chunks of both replies in the
    order they arrive (`ChatPage.OverlapReply`).
  - Every message of either reply lands there exactly once
    (`ChatPage.OverlapPieces`). When the first stream ends before the second
    begins, the second placeholder holds the first reply followed by the second
    (`ChatPage.OverlapInOrder`).
- **A send refused for lack of a token still leaves the user entry and an empty
  assistant entry.** The token is checked inside `sendChatMessage`, which runs after
  both entries are appended.
- **`onDone` is called only when the stream ends normally.** It is not called when
  the send throws. The active decoder strips no `"None"` sentinel, unlike the
  commented-out decoder at `src/app/api/chat.ts:38-150`. Nothing reflows
  markdown.

## Model

| member | source | states |
|---|---|---|
| JsString.Trim | src/app/api/chat.ts:193 | `trim()` is empty exactly when the string is all whitespace, and otherwise starts and ends with non-whitespace |
| JsString.TrimStart | src/app/api/chat.ts:214 | `trimStart()` is the suffix left after a whitespace-only prefix, and does not start with whitespace |
| JsString.TrimEnd | src/app/api/chat.ts:221 | `trimEnd()` is the prefix left before a whitespace-only suffix, and does not end with whitespace |
| JsString.Lines | src/app/api/chat.ts:212 | `split("\n")` gives at least one piece, no piece contains a newline, and joining the pieces with newlines gives the string back |
| JsString.LinesAfterNewline | src/app/api/chat.ts:212 | splitting text that starts with a newline gives an empty first piece, then the pieces of the rest |
| JsString.LinesAfterChar | src/app/api/chat.ts:212 | splitting text that starts with another character puts that character in front of the first piece |
| JsString.JoinLinesFirstChar | src/app/api/chat.ts:212 | joining lines whose first line starts with a character puts that character in front of the join |
| JsString.LinesOfJoin | src/app/api/chat.ts:212 | splitting the newline-join of newline-free lines gives back exactly those lines |
| JsString.ConcatAppend | src/app/api/chat.ts:200 | appending chunks in two batches gives the concatenation of the two batches |
| EventStream.DelimiterIndex | src/app/api/chat.ts:204-205 | `indexOf("\n\n")` is -1 exactly when the buffer has no delimiter; otherwise it points at a delimiter |
| EventStream.DelimiterIndexFirst | src/app/api/chat.ts:204 | the delimiter `indexOf` finds is the first: no delimiter starts before it |
| EventStream.NoDelimiterBefore | src/app/api/chat.ts:204 | a prefix without a delimiter has no delimiter starting in it |
| EventStream.FirstEventIsFrame | src/app/api/chat.ts:207 | the text before the first delimiter contains no delimiter and does not end with a newline |
| EventStream.Frames | src/app/api/chat.ts:203-208 | every event followed by `"\n\n"`, then the rest, gives the text back |
| EventStream.FramesWellFormed | src/app/api/chat.ts:203-208 | every event is well formed (no delimiter inside, no trailing newline) and the rest contains no delimiter |
| EventStream.SplitAtDelimiter | src/app/api/chat.ts:207-208 | at a delimiter, the buffer is the event, then `"\n\n"`, then the new buffer |
| EventStream.JoinAtDelimiter | src/app/api/chat.ts:207-208 | cutting one event and framing the remainder gives back the whole text |
| EventStream.JoinFramesAppend | src/app/api/chat.ts:203-208 | the framed text of two event lists in a row is the concatenation of their framed texts |
| EventStream.JoinFramesCons | src/app/api/chat.ts:207-208 | framing an event in front of a list puts the event and `"\n\n"` in front of the list's framed text |
| EventStream.FramesNoDelimiter | src/app/api/chat.ts:205 | a buffer without a delimiter yields no event and stays whole |
| EventStream.FramesAtDelimiter | src/app/api/chat.ts:204-208 | one drain step: the first event, then the events of what follows the delimiter |
| EventStream.DelimiterAfterFrame | src/app/api/chat.ts:204 | after a well-formed event, the first delimiter is the one that ends it |
| EventStream.FramesAfterFrame | src/app/api/chat.ts:203-208 | a well-formed event followed by `"\n\n"` is cut off first, in order |
| EventStream.FramesUnique | src/app/api/chat.ts:203-208 | events and rest are determined by the text: joining well-formed events and a delimiter-free rest and splitting again gives them back |
| EventStream.JoinTwoFramings | src/app/api/chat.ts:200-208 | the events of a text, then those of its rest with a chunk appended, frame the text with the chunk appended |
| EventStream.AllFrames | src/app/api/chat.ts:203-208 | two lists of well-formed events in a row are a list of well-formed events |
| EventStream.FramesIncremental | src/app/api/chat.ts:200-208 | draining after each chunk gives the events and buffer that draining the whole text once would give |
| EventStream.LineContentEmpty | src/app/api/chat.ts:213-217 | a line contributes nothing exactly when it is not a `data:` line and is blank |
| EventStream.ContentOfLast | src/app/api/chat.ts:212-218 | the content of lines is the content of all but the last, then the last line's contribution |
| EventStream.ContentOfPrefix | src/app/api/chat.ts:212-218 | one more pass of the line loop adds that line's contribution at the end |
| EventStream.ContentEmptyStep | src/app/api/chat.ts:212-220 | the content of lines is empty exactly when the content of all but the last is empty and the last contributes nothing |
| EventStream.AllSkippedStep | src/app/api/chat.ts:212-218 | every line is skipped exactly when every line but the last is skipped and the last is too |
| EventStream.ContentEmptyIff | src/app/api/chat.ts:212-220 | the accumulated content is empty exactly when every line is a blank non-data line |
| EventStream.EventContent | src/app/api/chat.ts:211-218 | the loop over the event's lines builds the per-line contributions in order, and is empty exactly when every line is skipped |
| EventStream.EventMessageFires | src/app/api/chat.ts:220-222 | the message callback fires exactly when some line is a data line or non-blank, and its argument has no trailing whitespace |
| EventStream.DataLineMessage | src/app/api/chat.ts:213-214 | a single `data:` line delivers its payload trimmed at both ends, so a bare `data:` line delivers `""` |
| EventStream.TrimEndNewline | src/app/api/chat.ts:214-221 | the newline added after each kept line is removed by the final `trimEnd` |
| EventStream.MessagesLast | src/app/api/chat.ts:220-222 | one more event adds its message, if it has one, at the end |
| EventStream.MessagesAppendStep | src/app/api/chat.ts:203-223 | the messages of two event lists in a row stay in order when one more event is added |
| EventStream.MessagesAppend | src/app/api/chat.ts:203-223 | the messages of two event lists in a row are their messages in order |
| EventStream.DrainStep | src/app/api/chat.ts:203-208 | one pass of the drain loop moves the first event of the buffer to the events taken, keeping the framing of the text the loop started from |
| EventStream.DrainDone | src/app/api/chat.ts:205 | when the buffer has no delimiter, the loop has taken exactly the events of the text it started from and keeps exactly its rest |
| EventStream.ProcessEvent | src/app/api/chat.ts:210-222 | one event yields its right-trimmed content, and yields a message exactly when some line is a data line or non-blank |
| EventStream.Decoder.constructor | src/app/api/chat.ts:186 | the buffer starts empty, with nothing received and no events cut |
| EventStream.Decoder.Feed | src/app/api/chat.ts:200-223 | appends the chunk; keeps the invariant that events cut plus buffer frame everything received; leaves no delimiter in the buffer; returns the messages of the new events in order |
| EventStream.Decoder.Drain | src/app/api/chat.ts:203-223 | the loop cuts off exactly the events of the buffer, in order, leaves exactly its delimiter-free rest, and returns the messages of those events in order |
| EventStream.Decoder.Finish | src/app/api/chat.ts:191-195 | the leftover buffer is delivered raw exactly when it holds a non-whitespace character |
| EventStream.OnMessagesAppend | src/app/api/chat.ts:221 | the callbacks for two message lists in a row are the two callback lists in order |
| EventStream.LastCall | src/app/api/chat.ts:191-195 | the `onMessage` for a non-blank leftover comes after those for the events |
| EventStream.ConcatLast | src/app/api/chat.ts:200 | the text received after one more chunk is the earlier text followed by that chunk |
| EventStream.ReadChunks | src/app/api/chat.ts:188-226 | after all chunks, the events, the buffer and the `onMessage` calls depend only on the concatenated text, not on where it was split |
| EventStream.SendChatMessage | src/app/api/chat.ts:152-233 | no token throws before any request; a rejected fetch, non-ok response, missing reader or read error throws and skips `onDone`; a normal end delivers every message, then the raw leftover, then `onDone` with the id passed in |
| Transcript.AppendChunk | src/app/context/ChatContext.tsx:115-135 | a trailing assistant entry gets the chunk appended, with everything else unchanged; an empty transcript or a trailing user entry is returned as it was; the page's copy at `src/app/chat/page.tsx` lines 132-152 behaves the same |
| Transcript.AppendEmptyChunk | src/app/context/ChatContext.tsx:130 | an empty chunk changes nothing |
| Transcript.AppendChunkTwice | src/app/context/ChatContext.tsx:130 | two chunks in a row have the effect of their concatenation |
| Transcript.ApplyChunksConcat | src/app/context/ChatContext.tsx:113-135 | updating chunk by chunk equals one update with all the text: the update is append-only and indifferent to chunking |
| Transcript.PlaceholderCollects | src/app/context/ChatContext.tsx:98-135 | the empty assistant placeholder ends holding the chunks concatenated in order, and the entries before it are untouched |
| Transcript.ExpandHistory | src/app/context/ChatContext.tsx:165-182 | n records become 2n entries: entry 2i is record i's user message, entry 2i+1 its AI message, both with the record's id, in input order |
| Transcript.ExpandedRolesAlternate | src/app/context/ChatContext.tsx:167-182 | the expanded history alternates user and assistant, starting with the user |
| ChatContext.ReplayPrefix | src/app/context/ChatContext.tsx:113-141 | replaying one more callback applies its state write after the earlier ones |
| ChatContext.ReplayDone | src/app/context/ChatContext.tsx:138-139 | a final `onDone` sets the session and leaves the transcript alone |
| ChatContext.ReplayMessages | src/app/context/ChatContext.tsx:113-135 | replaying only `onMessage` calls runs the chunk updater for each message in order and leaves the session alone |
| ChatContext.ReplaySend | src/app/context/ChatContext.tsx:94-142 | replaying a send's callbacks over the two new entries streams the whole reply into the placeholder, and sets the session exactly when the stream completes |
| ChatContext.ReplayAll | src/app/context/ChatContext.tsx:113-141 | any callback trace puts every `onMessage` text through the chunk updater in order, and leaves the session as its last `onDone` set it |
| ChatContext.ChunksAppend | src/app/context/ChatContext.tsx:113-135 | the `onMessage` texts of two traces in a row are those of the first, then those of the second |
| ChatContext.ChunksOfMessages | src/app/api/chat.ts:221 | a trace of `onMessage` calls passes on exactly its messages, in order |
| ChatContext.SendTraceChunks | src/app/api/chat.ts:191-222 | a send's callbacks pass on exactly the messages of its reply, and joined they are the text the assistant entry ends up holding |
| ChatContext.SendTraceDone | src/app/api/chat.ts:196 | a send's callbacks hold no `onDone` except one with the id passed in, and hold that one exactly when the stream completes |
| ChatContext.LastDoneUniform | src/app/context/ChatContext.tsx:138-141 | when every `onDone` of a trace carries the same id, the session ends with that id if there is an `onDone`, and is unchanged otherwise |
| ChatContext.ChatState.constructor | src/app/context/ChatContext.tsx:59-61 | no messages, no session, not loading |
| ChatContext.ChatState.SendMessage | src/app/context/ChatContext.tsx:79-150 | blank content or a busy state changes nothing; otherwise the state gains the user entry and the streamed assistant entry, the request carries the untrimmed content and `sessionId \|\| 0`, the session follows `onDone`, and loading ends false even on failure |
| ChatContext.ChatState.RunCallbacks | src/app/context/ChatContext.tsx:113-141 | running a send's callbacks in order leaves the state their replay describes |
| ChatContext.ChatState.StartNewChat | src/app/context/ChatContext.tsx:152-157 | the transcript is emptied and the session becomes null |
| ChatContext.ChatState.LoadSessionMessages | src/app/context/ChatContext.tsx:159-191 | on success, the transcript becomes the expanded history and the session the loaded id; on failure both are unchanged; loading ends false |
| ChatPage.SubmitCount | src/app/chat/page.tsx:72-82 | a key event submits at most twice; it submits at all exactly for Enter with Ctrl or without Shift, and twice exactly for Ctrl+Enter without Shift |
| ChatPage.MergeMultiset | src/app/chat/page.tsx:126-158 | two sends' callbacks running side by side, in any order, run every callback of each exactly once |
| ChatPage.MergeMultisetFirst | src/app/chat/page.tsx:126-158 | the same, when the next callback comes from the first send |
| ChatPage.MergeMultisetSecond | src/app/chat/page.tsx:126-158 | the same, when the next callback comes from the second send |
| ChatPage.MergeSequential | src/app/chat/page.tsx:126-158 | when the first send's callbacks always go first, all of them run before any of the second's |
| ChatPage.MergeChunks | src/app/chat/page.tsx:130-152 | the `onMessage` texts of two interleaved traces are those of both traces, each exactly once |
| ChatPage.MergeChunksFirst | src/app/chat/page.tsx:130-152 | the same, when the next callback comes from the first trace |
| ChatPage.MergeChunksSecond | src/app/chat/page.tsx:130-152 | the same, when the next callback comes from the second trace |
| ChatPage.OverlapPieces | src/app/chat/page.tsx:130-152 | with two overlapping sends, every message of either reply reaches the last entry exactly once |
| ChatPage.OverlapInOrder | src/app/chat/page.tsx:130-152 | when the first stream ends before the second starts, the last entry holds the first reply followed by the second |
| ChatPage.SessionAfterBoth | src/app/chat/page.tsx:155-157 | after two sends that carry the same session id, the session is that id once either stream completes, and is unchanged otherwise |
| ChatPage.OverlapSession | src/app/chat/page.tsx:126-158 | the session after two overlapping sends does not depend on how their callbacks interleave |
| ChatPage.ReplayOverlap | src/app/chat/page.tsx:96-164 | two overlapping sends leave both user entries, an empty first placeholder, and a second placeholder holding both replies' chunks in arrival order |
| ChatPage.Page.constructor | src/app/chat/page.tsx:18 | the text box starts empty |
| ChatPage.Page.StartSend | src/app/chat/page.tsx:96-128 | up to its `await`, the page's send refuses blank content or a rendered busy flag; otherwise it sets loading, appends the user entry and an empty assistant entry, and leaves the session alone; the callbacks still to come are those of the request sent with the rendered `sessionId \|\| 0` |
| ChatPage.Page.HandleSubmit | src/app/chat/page.tsx:62-69 | with blank rendered text or a rendered busy flag, nothing changes; otherwise the send of the untrimmed text starts and the text box is cleared |
| ChatPage.Page.Settle | src/app/chat/page.tsx:129-164 | the started sends' callbacks run in the order they arrive, and the `finally` leaves loading false |
| ChatPage.Page.SubmitForm | src/app/chat/page.tsx:62-175 | a refused submit changes nothing; an admitted one clears the text box, adds the user entry and the assistant entry holding the whole reply, adopts the session on completion, and ends with loading false |
| ChatPage.Page.HandleKeyDown | src/app/chat/page.tsx:72-82 | a key event that does not submit, or whose rendered text is refused, changes nothing. One submit behaves like the form. Ctrl+Enter without Shift starts two sends from the same render: four entries with the first placeholder empty, the second holding both replies interleaved, the session adopted once either completes, and loading false |
| ChatPage.Page.NewChat | src/app/chat/page.tsx:249-256 | the transcript ends empty and the session ends null, after passing through 0 |

## Left out

- `fetch`, `response.body.getReader()` and the streaming `TextDecoder` are not
  modelled. The response is an input: a failure, or a list of already-decoded
  chunks that ends normally or with a read error.
- The recursion of `processStream` is modelled as a loop over the chunks. The
  awaits between reads are not modelled.
- `getAuthToken` and the other localStorage helpers (`src/app/api/chat.ts:15-36`,
  `src/app/api/auth.ts`) are not modelled. The token is an `Option<string>` input.
- `fetchUserSessions`, `fetchSessions` and `fetchSessionMessages` are not modelled;
  they are HTTP only. The history that `loadSessionMessages` gets is an input, with
  `None` when the fetch throws. The session list refresh after `onDone` and on a new
  chat is not modelled.
- The commented-out decoder at `src/app/api/chat.ts:38-150` is dead code and is not
  modelled. This includes its JSON parsing, its `title_id`/`chat_id` handling and
  its `"None"` skipping.
- `Date.now()` and `new Date().toISOString()` are not modelled. Each operation
  takes one clock reading `now` and one timestamp `stamp`.
- Transcript.ExpandHistory: uses one `now` for every zero-id record, whereas the
  source reads the clock once per entry.
- React scheduling is modelled only in part:
  - A handler's sends are assumed to settle before the next event arrives. The text
    area is disabled while loading (`src/app/chat/page.tsx:346`).
  - State updates are applied at once, not batched.
  - `ChatContext.ChatState.SendMessage` reads the current `isLoading` and
    `sessionId`. The page's handlers read the values their render saw.
- ChatPage.Page.HandleKeyDown: states only the state after both overlapping sends
  have settled. While the second send is still streaming, the first send's
  `finally` has already cleared `isLoading`; the model does not capture that
  intermediate state.
- ChatPage.Page.Settle: runs one `finally` after all callbacks. The source runs one
  per send, and both set `isLoading` to false.
