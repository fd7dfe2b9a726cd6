# Camera and chat screen, modelled in Dafny

This project models the `CameraChatApp` screen component (`src/pages/Tras.jsx`).
The screen has two independent halves.

- **Chat timeline.** An append-only list of messages, seeded with a system welcome
  message. A submission is ignored when the input is blank after `trim()`.
  Otherwise it appends a `user` message, clears the input and schedules exactly one
  deferred `bot` reply 1000 ms later.
- **Camera toggle.** A flag (`isCameraOn`), an error string (`cameraError`), the held
  capture stream (`streamRef`) and the `<video>` element (`videoRef`) whose
  `srcObject` the stream is bound to.

Files:

- `jstext.dfy` (module `JsText`) holds JavaScript's `String.prototype.trim` over the
  ECMAScript white-space and line-terminator code points. It also holds the
  truthiness test the input guard applies to the trimmed string.
- `chat.dfy` (module `Chat`) holds the timeline as values: messages `(id, text, sender)`
  without timestamps, and a queue of scheduled replies. Each queued reply carries the
  id captured at submit time and its delay. The module also has the two updates
  (`Submit`, `FireNext`), traces of events (`Run`), the timeline invariant and the
  lemmas about them.
- `media.dfy` (module `Media`) holds the browser media objects as classes. A
  `Track` has a `stopped` flag. A `MediaStream` has a fixed list of tracks, and its
  `StopAll` is the `forEach(track => track.stop())` loop. A `VideoSurface` has a
  `srcObject` slot. `getUserMedia` is not modelled: its result is an `Acquisition`
  (`Granted(stream)` or `Denied`) passed in by the caller.
- `camera_chat_app.dfy` (module `CameraChat`) holds the component as a class. Its
  fields are the state cells and refs, and its methods are the handlers. The chat
  handlers are proved equal to `Chat.Submit` and `Chat.FireNext` on the timeline
  value. The camera handlers update the media objects in place.

Firing a reply is an explicit step (`FireReply`, or the event `Fire`). All replies
share the same delay, so they fire in the order they were scheduled, and the queue
fires its oldest entry first. Whether the `<video>` element is mounted is explicit
state: `videoRef` changes only through `AttachVideo`, which stands for React
committing a render. The element is rendered only while `isCameraOn` is true
(lines 116-123), so a committed render has `videoRef` non-null exactly when the
flag is on (`Committed`). The camera button acts on a committed render.

### How the code behaves (the model follows it)

- **Reply ids.** The user id is the list length + 1. The reply id is the length of
  the list the submission saw + 2, and the reply is appended to the list as it is
  when the timer fires. The consequence is listed under "## Findings". What does
  hold is stated in `Chat.Inv` and `Chat.ReachableFacts`: every id is at most its
  position + 1. When each reply fires before the next submission, ids equal
  positions + 1 (`Chat.ReplyBeforeNextSubmitKeepsIdsSequential`).
- **Message text.** The blank test trims the input, but the message stores the
  input as typed, untrimmed (`Chat.SubmitAppendsUserMessage`).
- **Camera states.** The camera is a flag plus an error string. Stopping leaves the
  error as it is. The only guard against a second start is the button choosing
  `stopCamera` when the flag is on.
- **Camera start.** The success branch of `startCamera` (lines 22-27) takes effect
  only when `videoRef.current` is non-null; the consequence is listed under
  "## Findings".
- **Unmount.** The cleanup stops the tracks of a held stream. It does not clear
  `streamRef`, unbind the surface or switch the flag.

## Model

| member | source | states |
|---|---|---|
| JsText.TrimStart | src/pages/Tras.jsx:46 | the result is a suffix of the input, everything dropped is white space, and it does not start with white space |
| JsText.TrimEnd | src/pages/Tras.jsx:46 | the result is a prefix of the input, everything dropped is white space, and it does not end with white space |
| JsText.IsWhiteSpace | src/pages/Tras.jsx:46 | the code points `trim()` strips: the ECMAScript white-space characters (TAB, VT, FF, ZWNBSP, the space separators) and line terminators (LF, CR, LS, PS); defined by enumeration, its use is stated by `JsText.TrimStart`, `JsText.TrimEnd` and `JsText.TrimIsSlice` |
| JsText.Trim | src/pages/Tras.jsx:46 | `inputMessage.trim()`: the leading white space dropped, then the trailing; what is left is stated by `JsText.TrimIsSlice` |
| JsText.TrimIsSlice | src/pages/Tras.jsx:46 | `trim()` is the contiguous piece of the input that starts after the leading white space (`TrimFrom`) and ends at `TrimTo`: everything before it and everything after it is white space, and the piece, when non-empty, neither starts nor ends with white space |
| JsText.IsBlank | src/pages/Tras.jsx:46 | the guard `!inputMessage.trim()` (also the send button's `disabled` test at line 200): the trimmed input is empty; characterised by `JsText.BlankIffAllWhiteSpace` |
| JsText.BlankIffAllWhiteSpace | src/pages/Tras.jsx:46 | the guard `inputMessage.trim()` is falsy exactly when every character of the input is white space (both directions) |
| Chat.Initial | src/pages/Tras.jsx:5-8 | the timeline a fresh screen starts with; its contents and invariant are stated by `Chat.InitialState` |
| Chat.Submit | src/pages/Tras.jsx:45-66 | `sendMessage` on the timeline value: a blank input leaves it as it is, otherwise `Chat.Accept`; stated by `Chat.SubmitBlankIsNoOp`, `Chat.SubmitAppendsUserMessage` and `Chat.SubmitPreservesInv` |
| Chat.Accept | src/pages/Tras.jsx:47-59 | the non-blank branch: user message with id length + 1 and the untrimmed text, input cleared, reply with id length + 2 scheduled; stated by `Chat.SubmitAppendsUserMessage` and `Chat.AcceptPreservesInv` |
| Chat.FireNext | src/pages/Tras.jsx:57-65 | the oldest timer fires and its bot message, with the id captured at submission, goes after the current list (`prev`); stated by `Chat.FirePreservesInv`, `Chat.FiringAllAppendsReplies` and `Chat.SubmissionGetsItsReply` |
| Chat.Step | src/pages/Tras.jsx:45-65 | one event: an edit of the input (line 193), a submission, or the oldest timer firing (nothing when none is scheduled); stated by `Chat.StepPreservesInv` |
| Chat.Run | src/pages/Tras.jsx:45-65 | any interleaving of edits, submissions and timer firings; stated by `Chat.RunPreservesInv`, `Chat.RunOnlyAppends` and `Chat.ReachableFacts` |
| Chat.InitialState | src/pages/Tras.jsx:5-8 | a fresh timeline is exactly [id 1, "Welcome to the chat!", system], with an empty input and nothing scheduled; it satisfies the invariant and has ids equal to positions + 1 |
| Chat.SubmitBlankIsNoOp | src/pages/Tras.jsx:45-46 | an all-white-space input leaves messages, input and schedule unchanged |
| Chat.SubmitAppendsUserMessage | src/pages/Tras.jsx:46-65 | an input with a non-white-space character appends exactly one user message (id old length + 1, untrimmed text), clears the input and schedules exactly one reply with id old length + 2 and delay 1000 |
| Chat.SubmissionGetsItsReply | src/pages/Tras.jsx:45-65 | every accepted submission gets its own reply: after the replies scheduled before it and its own have fired, the list is the submitted one, then the earlier replies, then one bot message with the canned text and id equal to the list length the submission saw + 2; nothing stays scheduled |
| Chat.AcceptPreservesInv | src/pages/Tras.jsx:47-59 | the accepted branch of a submission keeps the timeline invariant |
| Chat.SubmitPreservesInv | src/pages/Tras.jsx:45-65 | a submission keeps the timeline invariant: welcome first, ids at most position + 1, queued ids increasing and at most length + 1, one reply per unanswered user message |
| Chat.FirePreservesInv | src/pages/Tras.jsx:57-65 | a firing reply keeps the timeline invariant |
| Chat.StepPreservesInv | src/pages/Tras.jsx:45-65 | editing, submitting and firing each keep the timeline invariant |
| Chat.RunPreservesInv | src/pages/Tras.jsx:45-65 | every sequence of events keeps the timeline invariant |
| Chat.RunOnlyAppends | src/pages/Tras.jsx:53-64 | after any sequence of events the earlier message list is a prefix of the later one: nothing is changed, removed or reordered |
| Chat.ReachableFacts | src/pages/Tras.jsx:5-65 | in every reachable timeline the welcome message stays first, each id lies between 1 and its position + 1, and the user messages number the bot messages plus the scheduled replies |
| Chat.FiringAllAppendsReplies | src/pages/Tras.jsx:57-65 | firing every scheduled reply appends one bot message per scheduled reply, in scheduling order, with the captured ids, and empties the queue |
| Chat.AllAnsweredAfterFiring | src/pages/Tras.jsx:45-65 | once all scheduled replies have fired, every user message has exactly one bot reply (equal counts) |
| Chat.ReplyBeforeNextSubmitKeepsIdsSequential | src/pages/Tras.jsx:48-59 | if each reply fires before the next submission, ids stay equal to positions + 1 |
| Chat.FirstExchangeScenario | src/pages/Tras.jsx:45-65 | on a fresh timeline, typing any text with a non-white-space character (such as "hello") and submitting gives [welcome, (2, text, user)]; the reply then adds (3, canned text, bot) |
| Chat.SpacesScenario | src/pages/Tras.jsx:45-46 | submitting "   " leaves only the welcome message |
| Chat.OverlappingRepliesDuplicateIds | src/pages/Tras.jsx:48-64 | for any two non-blank texts, submitting both before the first reply fires produces two messages with id 3 (user and bot) |
| Chat.OverlappingRepliesBreakOrder | src/pages/Tras.jsx:48-64 | for any three non-blank texts, submitting all three before the first reply fires puts the reply with id 3 after the user message with id 4 |
| Chat.FireNextFixed | src/pages/Tras.jsx:57-65 | the reply step as evidently intended: the reply's id is the length of the list it joins + 1; its effect on ids is stated by `Chat.FixedRunKeepsIdsSequential` |
| Chat.StepFixed | src/pages/Tras.jsx:45-65 | one event with the corrected reply step; stated by `Chat.FixedRunKeepsIdsSequential` |
| Chat.RunFixed | src/pages/Tras.jsx:45-65 | any interleaving of events with the corrected reply step; stated by `Chat.FixedRunKeepsIdsSequential` and `Chat.FixedIdsAreUnique` |
| Chat.FixedRunKeepsIdsSequential | src/pages/Tras.jsx:48-64 | with the corrected reply step, every interleaving of edits, submissions and firings keeps ids equal to positions + 1 |
| Chat.FixedIdsAreUnique | src/pages/Tras.jsx:48-64 | with the corrected reply step, ids are unique and strictly increasing along the list in every timeline reachable from a fresh screen |
| Media.Track.Stop | src/pages/Tras.jsx:36 | `track.stop()` leaves the track stopped |
| Media.MediaStream.StopAll | src/pages/Tras.jsx:36 | `getTracks().forEach(track => track.stop())` leaves every track of the stream stopped and touches nothing else |
| CameraChat.CameraChatApp.constructor | src/pages/Tras.jsx:5-12 | mounting gives one welcome message (id 1, system), empty input, camera off, no error, no stream, no surface, no request |
| CameraChat.CameraChatApp.EditInput | src/pages/Tras.jsx:193 | the change handler sets the input to the new text and changes nothing else |
| CameraChat.CameraChatApp.SendMessage | src/pages/Tras.jsx:45-67 | the new timeline is `Chat.Submit` of the old one, the old list is a prefix of the new, the invariant is kept, and the camera is untouched |
| CameraChat.CameraChatApp.FireReply | src/pages/Tras.jsx:57-65 | the new timeline is `Chat.FireNext` of the old one (the reply goes after the current messages), the old list is a prefix of the new, the invariant is kept |
| CameraChat.CameraChatApp.AttachVideo | src/pages/Tras.jsx:116-123 | React committing a render sets `videoRef` to the `<video>` element when the flag is on and to null when it is off, and nothing else; the result is a committed state |
| CameraChat.CameraChatApp.StartCamera | src/pages/Tras.jsx:15-32 | exactly one 640x480 video-only request. Refused: error set to "Unable to access camera. Please check permissions.", flag, stream and binding unchanged. Granted with a surface: stream bound and held, camera on, error cleared. Granted with no surface: nothing changes. No track is ever stopped |
| CameraChat.CameraChatApp.StopCamera | src/pages/Tras.jsx:34-43 | every track of a held stream is stopped, `streamRef` is null, a present surface is unbound, the flag is off, the error is kept; the post-state does not depend on whether a stream was held, so a second call changes nothing |
| CameraChat.StopCameraIsIdempotent | src/pages/Tras.jsx:34-43 | `stopCamera` applied to the state it leaves (no stream, camera off, surface unbound) changes no field of the component and no binding: a second call is the same as one |
| CameraChat.CameraChatApp.ToggleCamera | src/pages/Tras.jsx:101 | the button on a committed render. On: every track stopped, no stream held, the surface kept but unbound, the flag off, the error kept, no request. Off: one request and no element attached, so the camera stays off with no stream held and no surface; a refusal sets the error, and a grant keeps the error and stops no track of the granted stream |
| CameraChat.CameraChatApp.Unmount | src/pages/Tras.jsx:79-85 | the cleanup stops every track of a held stream and leaves every field of the component unchanged; with no stream it does nothing |
| CameraChat.PressStartOnce | src/pages/Tras.jsx:15-32 | one press of the button with the camera off, then React's commit: the camera stays off with no stream and no surface, one more request, the error set on a refusal and kept on a grant |
| CameraChat.PressStartRepeatedly | src/pages/Tras.jsx:9-32 | from a fresh screen, any number of presses (each followed by React's commit) and then the unmount leave the camera off with no stream and no surface; the error is set exactly when some request was refused; one request per press; no track of any granted stream is ever stopped |
| CameraChat.StartThenStopWithElementMounted | src/pages/Tras.jsx:15-43 | when the `<video>` element exists as the request settles, a granted start turns the camera on with the stream held and shown and the error cleared, and a stop then leaves every track of that stream stopped, no stream held, the flag off and the surface unbound |

## Left out

- `src/pages/Landing.jsx` and `src/App.jsx`: navigation and a route table, with no state.
- Rendering, class names and styling (lines 87-210). The send button's `disabled`
  expression (line 200) is the same blank test as the guard at line 46.
- `handleKeyPress` (lines 69-73): key handling only calls `sendMessage` on Enter.
- The scroll effect (lines 75-77), `console.error` (line 29), and the timestamps
  from `new Date()` with their display.
- `getUserMedia` and the browser media pipeline: the outcome is a parameter. The
  time between the request and its settling is not modelled, so `StartCamera` is one
  step. A second click while a request is still pending (the flag is still off) is
  therefore not represented as overlapping requests.
- Timer timing: replies fire as an explicit step, oldest first. The 1000 ms delay
  is recorded in each scheduled reply but not measured.
- React's own behaviour: re-rendering, batching, and ignoring updates to an
  unmounted component. `SendMessage` reads the current list, because the screen
  re-renders between user events. A reply that fires after `Unmount` still updates
  the fields, which nothing reads any more.
- CameraChat.CameraChatApp.FireReply: requires a scheduled reply, because a timer
  callback exists only once `sendMessage` has scheduled it.
- CameraChat.CameraChatApp.ToggleCamera: requires a committed render (`Committed`),
  because React runs a click handler only on a render it has committed, and in
  that render `videoRef` is set exactly when the `<video>` element is shown.
- JavaScript strings are sequences of UTF-16 code units, while the model's strings
  are sequences of Unicode scalar values, so an input holding a lone surrogate has
  no counterpart here. `trim()` is unaffected: every code point it strips lies in
  the Basic Multilingual Plane and is a single code unit.

## Findings

| source | as written | input that shows it | evidently intended | confidence | as-written member | corrected member |
|---|---|---|---|---|---|---|
| src/pages/Tras.jsx:59 | the reply id is `messages.length + 2` from the list the submitting render saw, while the reply is appended to the list current when the timer fires | type "a", send, type "b", send within 1000 ms, let both replies fire: ids 1, 2, 3, 3, 4 (with a third send, the reply with id 3 lands after the user message with id 4) | each reply takes the next id of the list it joins (`prev.length + 1`), so ids stay unique and increasing | high, not executed | Chat.OverlappingRepliesDuplicateIds | Chat.FixedRunKeepsIdsSequential |
| src/pages/Tras.jsx:22 | the success branch needs `videoRef.current`, but `<video>` is rendered only while `isCameraOn` is true and that branch is the only place setting it to true | a fresh screen, press Start, permission granted: the camera stays off, and the granted stream is neither shown nor held, so its tracks keep running and the unmount cleanup cannot stop them | the element exists when the request settles (rendered whatever the flag, hidden while off), so a grant shows and holds the stream and a stop releases it | high, not executed | CameraChat.PressStartRepeatedly | CameraChat.StartThenStopWithElementMounted |
