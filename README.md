# Document chat client: session and conversation state

This project models the state machine at the heart of the chat client's
`App` component. The client keeps a list of document sessions, one optional
active session, the active session's messages, the text being typed, and two
in-flight flags (`isLoading` for a question, `isUploading` for a document
upload). Five handlers update that state around one or more backend calls each:

- refreshing the session list;
- selecting a session and rebuilding its timeline from the stored
  question/answer history;
- deleting a session;
- uploading a document, which creates a session and activates it;
- sending a question, with the question appended before the call and exactly
  one assistant reply appended after it.

Modules:

- `ChatTypes` (`chat_types.dfy`): the record shapes (`ChatMessage`,
  `HistoryEntry`, `SessionHistory`, `AskRequest`, `AskResponse`,
  `UploadResponse`) and `Outcome<T> = Ok(value) | Err`. `Outcome` stands for
  a backend call that either resolves or rejects.
- `Text` (`text.dfy`): ECMAScript `trim`, as the send guard uses it.
- `Registry` (`registry.dfy`): the filter that removes a deleted id from the
  session list.
- `Timeline` (`timeline.dfy`): the history-to-timeline rebuild. It is given
  as a recursive specification function `Build` and as the loop
  `BuildChatHistory` that the handler runs.
- `ChatApp` (`chat_app.dfy`): class `App` with the six state fields. A
  handler that changes state both before and after its backend call
  (selecting, uploading, sending) is split at that call into a Begin method
  and a Complete method, and the Complete method takes the backend outcome as
  a parameter. A handler that changes nothing before its call is one method
  that takes the outcome: `FetchSessions` for the list refresh, and
  `DeleteSession`, which takes the confirm answer and the remote outcome
  together. The upload handler awaits twice, once for the upload and once
  for the list refresh, and `UploadComplete` runs both continuations as one
  step. Every method's `modifies` clause names the fields it may set, so all
  other fields keep their values.
- `Scenarios` (`scenarios.dfy`): short runs of the handlers from a fresh
  component. They show what the handler contracts guarantee over several
  steps.

Timestamps are integers in half-millisecond units. The `+ 0.5` given to a
rebuilt answer becomes `+ 1`. The wall clock is a parameter: `now` for a
single reading, or a sequence `clock` of the readings taken while a timeline
is rebuilt, one per pushed message. Message `k` of a rebuilt timeline has
timestamp `2 * clock[k] + k`, so a non-decreasing clock gives strictly
increasing timestamps.

In four places a reader might expect behaviour the code does not have. The
model follows the code:

- One might expect a newer selection to discard the history response of an
  older one. The code has no such check: a history response is applied
  whichever session is active when it arrives, and its `session_id` is
  ignored (`Scenarios.StaleHistoryApplied`).
- One might expect selecting to clear the previous timeline at once. The
  code keeps the old messages until the history response arrives.
- One might expect at most one question in flight per session. The code has
  a single `isLoading` flag for the whole component, so a question in flight
  in one session also blocks sending in every other session
  (`Scenarios.SendWhileInFlight`).
- One might expect the session list to stay free of duplicates, with a new
  session appended after an upload. The code replaces the list wholesale
  with whatever the backend returns and never appends. The model proves only
  that the delete filter keeps a list free of duplicates
  (`Registry.WithoutDistinct`).

The send guard tests the active id for JavaScript truthiness, so an active id
of `""` counts as no session (`ChatApp.HasActive`,
`Scenarios.EmptyActiveIdRejectsSend`).

## Model

| member | source | states |
|---|---|---|
| `ChatApp.App.constructor` | App.tsx:8-13 | Initially there are no sessions, no active session and no messages, the input is empty and both flags are false. |
| `ChatApp.App.TypeInput` | App.tsx:244 | The text box's change handler sets the input to the typed text and changes nothing else. |
| `ChatApp.App.FetchSessions` | App.tsx:25-32 | A fetched list replaces the session list wholesale. A failed fetch leaves it unchanged. No other field changes. |
| `ChatApp.App.SelectSessionBegin` | App.tsx:35-36 | Selecting sets the active session to the id at once and leaves the messages as they were. |
| `ChatApp.App.SelectSessionComplete` | App.tsx:38-49 | A successful history response sets the messages to the rebuilt timeline of that history. A failed one sets them to empty. Nothing else changes, including the active session. |
| `Timeline.BuildChatHistory` | App.tsx:40-44 | The forEach/push loop returns exactly the timeline `Build` specifies, for every history. |
| `Timeline.BuildShape` | App.tsx:40-44 | A history of n entries gives exactly 2n messages, so an empty history gives none. Even position 2i is a user message holding question i and odd position 2i+1 is an assistant message holding answer i. Message k has timestamp `2 * clock[k] + k`. |
| `Timeline.BuildOrdered` | App.tsx:42-43 | With a non-decreasing clock, timestamps strictly increase across the whole timeline: each answer comes after its question, and each pair after the previous pair. |
| `Registry.Without` | App.tsx:61 | The filtered list holds exactly the ids of the old list other than the deleted id, and is no longer than the old list. |
| `Registry.WithoutConcat` | App.tsx:61 | The filter distributes over concatenation, so the ids that remain keep their relative order. |
| `Registry.WithoutCounts` | App.tsx:61 | Every occurrence of the deleted id is removed, and every other id keeps its number of occurrences. |
| `Registry.WithoutAbsent` | App.tsx:61 | Deleting an id the list does not hold leaves the list unchanged. |
| `Registry.WithoutDistinct` | App.tsx:61 | A list without duplicates stays without duplicates and loses exactly one element when it held the deleted id. |
| `ChatApp.App.DeleteSession` | App.tsx:56-69 | A delete happens exactly when the user confirms and the remote delete succeeds. Then the id is filtered out of the list. If the id was active, the active session becomes none and the messages empty; otherwise both stay unchanged. A declined or failed delete changes nothing. |
| `ChatApp.App.UploadBegin` | App.tsx:71-75 | Without a chosen file nothing changes. With one, the upload flag is raised. |
| `ChatApp.App.UploadComplete` | App.tsx:76-86 | After a successful upload the list is refreshed (or kept if the refresh fails), and the new id becomes active whether or not the refresh succeeded. After a failed upload the list and active session are unchanged. The messages never change here, and the upload flag always ends false. |
| `Text.SkipLeading` | App.tsx:90 | The scan stops at the first character that is not white space, or at the end; every character it passes is white space. |
| `Text.SkipTrailing` | App.tsx:90 | The backward scan stops just after the last character that is not white space (never before the start of the text); every character it passes is white space. |
| `Text.Trim` | App.tsx:90 | The trimmed input is no longer than the input and neither starts nor ends with white space. |
| `Text.TrimIsSlice` | App.tsx:90 | The trimmed input is a contiguous slice of the input, with only white space cut from either end. |
| `Text.TrimEmptyIffBlank` | App.tsx:90 | The trimmed input is empty exactly when every character of the input is white space. |
| `ChatApp.SendAccepted` | App.tsx:90 | A send goes ahead exactly when the input has a character other than white space, the active id is present and not empty, and no question is in flight. |
| `ChatApp.App.SendMessageBegin` | App.tsx:88-96 | When the guard rejects, no field changes and no request is made. When it accepts, the request carries the active id and the untrimmed input, exactly one user message with that input is appended, the input becomes empty and the loading flag becomes true. |
| `ChatApp.App.SendMessageComplete` | App.tsx:98-117 | Exactly one assistant message is appended after the earlier messages, which stay unchanged: the response's answer on success, the fixed apology text on failure. The loading flag ends false. |
| `Scenarios.FailedAskKeepsQuestion` | App.tsx:88-117 | In a fresh session, a failed question leaves the timeline as the user question followed by exactly one apology, and the loading flag ends false. |
| `Scenarios.EmptyActiveIdRejectsSend` | App.tsx:90 | With `""` as the active id a send is rejected: no request, no message, the input kept and the loading flag still false. |
| `Scenarios.SendWhileInFlight` | App.tsx:90-96 | A second send while a question is in flight is rejected with no request and no new message, even after switching session. |
| `Scenarios.UploadOpensNewSession` | App.tsx:71-86 | After a successful upload the new id is active, the list is the refreshed one (or the old one), the upload flag is false, and the timeline is empty once the new session's history arrives. |
| `Scenarios.StaleHistoryApplied` | App.tsx:35-49 | Selecting a and then b before a's history arrives leaves b active with a's rebuilt conversation displayed. |
| `Scenarios.DeleteActiveSession` | App.tsx:56-69 | Deleting the active session from a list without duplicates removes exactly that id, keeps every other id, and leaves no active session and no messages. |

## Left out

- Rendering, the sidebar, the upload modal and its flag, the sidebar flag, the scroll effect and the truncated display names (App.tsx:14-22, 37, 52-54, 80, 120-368). These are presentation only.
- The HTTP wrappers in `services/api.ts`, including the request defaults `chunk_size` 400, `chunk_overlap` 50 and `k` 5. Every backend call is an `Outcome` parameter, so `AskRequest` carries no `k`.
- The browser `confirm` dialog is a boolean parameter of `DeleteSession`. The chosen file of the upload input is a boolean parameter of `UploadBegin`. `alert` and `console.error` are left out; they only report.
- `Date.now()` and the fractional timestamps: only an integer, ordering-preserving abstraction is kept (see above).
- Interleaving of asynchronous handlers is left out. Each handler half runs as one atomic step, and a caller may order the halves in any way.
- `ChatApp.App.DeleteSession`: the handler compares the deleted id with the active id it captured when the click was rendered. The model compares with the active id at the time of the step. The two differ only if another handler changes the active session while the remote delete is pending.
- The initial session fetch on mount (App.tsx:19-22) is not a separate member; it is `FetchSessions` applied to the constructor's state.
- `Text.IsWhitespace` covers the white space and line terminator code points that ECMAScript `trim` removes. All of them lie in the Basic Multilingual Plane, so the model treats a string as a sequence of characters rather than UTF-16 code units.
