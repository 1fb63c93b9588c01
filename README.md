# Chat application: verified model of the client session and its server rules

This project models a Flask + Socket.IO chat application. The browser half is
the `ChatApp` object of `static/js/chat.js`. It does the following:

- It keeps the active conversation and joins and leaves that conversation's
  socket room.
- It loads the history and shows live messages.
- It keeps the sidebar previews up to date.
- It debounces the local user's typing notices and shows other users' notices.
- It runs the voice pipeline: capture, upload, then send.

The server half is what `routes.py` and `models.py` decide for it:

- the upload whitelists;
- who may read, post and type in a conversation;
- which page of history is returned and in what order;
- which participant rows a new conversation gets, and when the
  `(conversation, user)` unique constraint rejects them;
- how conversations and messages are serialised.

## Files

| file | module | models |
|---|---|---|
| `wrappers.dfy` | `Wrappers` | `Option` |
| `text.dfy` | `Text` | whitespace trimming (JavaScript `trim` and Python `strip`, which differ on U+001C to U+001F) and ASCII lower-casing |
| `wire.dfy` | `Wire` | ids (with the page's string and number kinds), the message dictionary, typing notices and the socket events the client emits |
| `models.dfy` | `Models` | the tables' rows, `get_other_participant`, `Conversation.to_dict`, `Message.to_dict`, the unique constraint |
| `routes.dfy` | `Routes` | the whitelists, search, the history page, and class `Store` with `get_messages`, `create_conversation`, `handle_send_message` and `handle_typing` |
| `chat_app.dfy` | `ChatClient` | class `ChatApp`, one method per handler and one per asynchronous continuation |
| `chat_scenarios.dfy` | `ChatScenarios` | whole runs of the page (and of page plus server) and what they produce |

## How the client is modelled

`ChatApp` is a class. Its fields are the JavaScript object's fields plus the
DOM state the handlers write:

- the message list;
- the input box;
- the typing indicator and its text;
- one preview string per conversation that has a preview element.

Effects on the outside world are append-only logs:

- `emits` holds the socket events sent;
- `requests` holds the HTTP and microphone requests issued;
- `alerts` holds the alerts shown.

An `async` handler is split at each `await`. The part before the `await` is
one method, and whatever happens when the promise settles is another:

- `OnHistoryResponse` continues `loadMessages`;
- `OnMicrophoneGranted` and `OnMicrophoneDenied` continue `toggleVoiceRecording`;
- `OnUploadResponse` continues `processRecording`.

The browser can call these methods in any order. Each recorder callback
(`ondataavailable`, `onstop`) and the typing timer is also a method of its own.
The pending typing timer is the flag `typingTimerArmed`. The invariant
`Valid()` says the timer is armed exactly while `isTyping` holds, and that
`isTyping` needs an active conversation.

Several behaviours of `chat.js` are easy to miss when reading one handler at
a time. The model keeps each of them as the code has it:

- **History responses.** No handler checks that a history response belongs
  to the conversation that is active now. Any successful history response
  replaces the list (`LateHistoryOverwrites`).
- **Live messages.** `handleNewMessage` is modelled from the `HEAD` side of
  the unresolved merge in `chat.js`. On that side the preview is updated for
  every message, and the message is appended when it belongs to the active
  conversation.
- **Conversation ids.** A conversation opened from the sidebar has the id
  read from `dataset.conversationId`, which is a string. A live message's
  `conversation_id` comes from `Message.to_dict`, which gives a number. The
  page compares the two with `===`, so such a message never matches. The
  model keeps the kind of every id (`JsId`) and records this under
  "Findings".
- **Empty recordings.** `processRecording` returns early when no chunks were
  captured, so nothing is uploaded (`SilentRecordingNotUploaded`).
- **Cancel.** The recorder still delivers data and its stop event after
  `cancelRecording`. A chunk delivered after the cancel is therefore
  uploaded and sent (`CancelThenFinalChunkSends`).
- **Typing after a switch.** `selectConversation` does not end a typing
  burst. The timer's `typing: false` then goes to the newly opened
  conversation (`StaleTypingStopAfterSwitch`).
- **Two trims.** The page uses JavaScript's `trim` and the server uses
  Python's `str.strip`. `strip` also removes U+001C to U+001F. A message of
  only U+001C passes the page's blank check and is refused by the server
  (`SeparatorOnlyMessageRefused`).

## Model

| member | source | states |
|---|---|---|
| Text.TrimStart | static/js/chat.js:250 | the first index from the given one on that is not whitespace, with only whitespace skipped |
| Text.TrimEnd | static/js/chat.js:250 | the end of the last character that is not whitespace, with only whitespace skipped |
| Text.TrimSpec | routes.py:123 | trimming keeps a contiguous middle of the input, removes only whitespace, leaves none at either end, and gives "" exactly on all-whitespace input |
| Text.TrimWithAt | routes.py:308 | the middle between leading and trailing whitespace, itself starting and ending with other characters, is the trim |
| Text.Trim | static/js/chat.js:250 | JavaScript's `trim` (also at chat.js:341): empty exactly when the input is all JavaScript whitespace, so `!content` tests blankness |
| Text.Strip | routes.py:308 | Python's `strip` (also at routes.py:123): empty exactly when the input is all Python whitespace, which includes U+001C to U+001F |
| Text.StripInside | routes.py:308 | a slice of the text lying around its strip strips to the same thing |
| Text.StripAfterTrim | routes.py:308 | over the ASCII whitespace modelled, the server's `strip` of what the page's `trim` sent equals the server's `strip` of the raw text |
| Text.TrimKeepsSeparators | static/js/chat.js:250 | `trim` keeps U+001C where `strip` drops it: "a\u001c" and "\u001c" stay as they are under `trim` and become "a" and "" under `strip` |
| Text.Lower | routes.py:18 | lower-casing keeps the length and maps each character through the ASCII case shift |
| Models.FirstOther | models.py:65-69 | none exactly when every participant is the viewer; otherwise the first participant, in order, who is not the viewer |
| Models.GetOtherParticipant | models.py:61-69 | a group has no "other participant"; a direct conversation has the first participant who is not the viewer |
| Models.ConversationToDict | models.py:71-87 | id, group flag, timestamp and participant count copied; a group shows its name or "Group Chat" with no avatar; a direct conversation shows the other participant's name and avatar, or "Unknown" and no avatar |
| Models.DirectConversationShowsOtherUser | models.py:71-78 | a direct conversation of two users is titled with the other user's name and avatar, in either participant order |
| Models.MessageToDict | models.py:114-129 | every column copied, `edited_at` included, the sender's name and avatar joined in, and `edited_at` null exactly when the row's is |
| Wire.KeyOf | routes.py:307 | the value the server reads from the id the page sent: present exactly when an id was sent, and then that id's value |
| Routes.LastDot | routes.py:18 | the index of the last '.' of the name, or -1 exactly when there is no '.' |
| Routes.AllowedFileIff | routes.py:17-21 | a whitelist accepts exactly the names whose text after the last '.' lower-cases into its set |
| Routes.LastDotUnique | routes.py:18 | the last '.' is unique, so `rsplit('.', 1)[1]` is well defined |
| Routes.AllowedVoiceFile | routes.py:14-18 | accepted iff the extension after the last '.', lower-cased, is one of mp3, wav, ogg, m4a, webm |
| Routes.AllowedImageFile | routes.py:15-21 | accepted iff the extension after the last '.', lower-cased, is one of png, jpg, jpeg, gif, webp |
| Routes.ClientVoiceUploadNameAllowed | routes.py:171 | the name the page gives every voice upload passes the voice whitelist |
| Routes.Take | routes.py:140 | `.limit(n)`: a prefix of the input of length min(n, its length) |
| Routes.Search | routes.py:120-159 | a query that is blank after `strip` returns nothing; otherwise the user list is exactly the first 10 user matches (all of them when there are fewer) for type all or users, and the message list exactly the first 20 message matches for type all or messages; any other type leaves that list empty |
| Routes.ConsNewestFirst | routes.py:60 | a row no older than every row of a newest-first run can lead it |
| Routes.InsertNewestFirst | routes.py:60 | inserting keeps the rows newest first and adds exactly the new row |
| Routes.SortNewestFirst | routes.py:60 | `order_by(created_at.desc())`: newest first and a permutation of the input |
| Routes.Reverse | routes.py:65 | `reversed`: same length, element k taken from the mirrored position |
| Routes.Visible | routes.py:57-59 | exactly the conversation's rows that are not deleted, each as many times as in the table, and never more rows than the table |
| Routes.VisibleAppend | routes.py:57-59 | a row added at the end of the table is added at the end of the visible rows exactly when it is visible: with `Visible([]) == []` this makes `Visible` the order-preserving filter of the table |
| Routes.ReverseNewestFirst | routes.py:60-65 | reversing a newest-first run gives an oldest-first run of the same rows |
| Routes.NewerInPrefix | routes.py:60-62 | in a newest-first sequence, a row newer than one in a prefix is in that prefix |
| Routes.PageFacts | routes.py:60-62 | the page is drawn from the visible rows; on page 1 nothing newer than a returned row is left out; a short history fits page 1 whole |
| Routes.EffectivePage | routes.py:54-61 | `paginate(error_out=False)` reads every page below 1 as exactly page 1 and keeps any other page |
| Routes.PageStart | routes.py:54-62 | page 1 (and any page below it) starts at row 0, and every later page starts exactly where the page before it ended, never past the history |
| Routes.PageEnd | routes.py:54-62 | page p ends at 50p rows or at the end of the history, whichever comes first: never past either, and at one of the two |
| Routes.PageLength | routes.py:54-62 | page p holds max(0, min(50, n - 50(p-1))) rows: 50, what remains after the earlier pages, or none exactly when the earlier pages use up the history; a page of fewer than 50 rows reaches the end of the history |
| Routes.HistoryPage | routes.py:54-66 | exactly `PageLength` rows, oldest first, all visible; page 1 holds the newest rows; with at most 50 rows page 1 holds them all |
| Routes.PageIsSlice | routes.py:57-65 | page p turned back is rows `PageStart` to `PageEnd` of the newest-first order |
| Routes.PagesStep | routes.py:57-65 | reading page p appends exactly its slice of the newest-first order |
| Routes.PagesExtend | routes.py:57-65 | if pages 1 to k-1 are the newest-first rows before page k, pages 1 to k are the newest-first rows up to the end of page k |
| Routes.PagesArePrefix | routes.py:57-65 | pages 1 to k, each turned back, are the first min(50k, n) rows of one newest-first order, so page p ≥ 2 holds the rows after the first 50(p-1) |
| Routes.HistoryPagesCoverAll | routes.py:54-66 | paging from 1 up to past the end yields every visible row exactly once, newest first across pages |
| Routes.Others | routes.py:109-110 | the listed ids that are not the creator |
| Routes.OthersCount | routes.py:109-115 | each listed id other than the creator gets as many rows as it is listed; the creator gets none from the list |
| Routes.RowsOf | routes.py:111-115 | one participant row per user, in order |
| Routes.NewParticipantRows | routes.py:101-115 | the creator's row first; every row is of the new conversation; a user gets a row exactly when it is the creator or listed |
| Routes.Store.PendingParticipants | routes.py:101-115 | the loop adds the creator and then each listed id other than the creator, giving exactly `NewParticipantRows` |
| Routes.RowsOfUniqueIff | models.py:97 | rows of one conversation are unique exactly when their user ids are |
| Routes.ConsUniqueIff | models.py:97 | a sequence with a new head is duplicate-free exactly when its tail is and lacks the head |
| Routes.NewRowsUniqueIff | routes.py:101-115 | the new rows are unique exactly when the other listed ids are duplicate-free |
| Routes.DupCount | models.py:97 | an element at two positions occurs more than once |
| Routes.NoDupCount | models.py:97 | in a duplicate-free sequence every element occurs at most once |
| Routes.DuplicateListedIdBreaksUniqueness | routes.py:101-117 | the new rows break the unique constraint exactly when some listed id other than the creator is listed twice |
| Routes.Store.FreshRowsUnique | models.py:97 | rows of a conversation not yet in the table never clash with existing rows |
| Routes.Store.IsParticipant | routes.py:46-49 | the `filter_by(conversation_id, user_id).first()` lookup (also at routes.py:313-316 and 355-358): true exactly when some participant row links the user to the conversation |
| Routes.Store.GetMessages | routes.py:42-68 | 403 exactly for a non-participant; otherwise exactly `HistoryPage` of the conversation's undeleted rows (so `PageLength` of them, oldest first), the page echoed, and `has_more` true exactly when rows remain past this page |
| Routes.Store.CreateConversation | routes.py:70-118 | no ids: 400 "At least one participant is required"; one id, not a group, existing conversation: that one; a duplicated non-creator id, or a creator or listed id with no user row (the foreign key of models.py:94): integrity error and nothing stored; else a new conversation (named only if a group) with the creator and each other listed id once, and the next conversation id advanced |
| Routes.KnownUsersIff | models.py:94 | the new participant rows satisfy the users foreign key exactly when the creator and every listed id are users |
| Routes.Store.HandleSendMessage | routes.py:304-346 | "Unauthorized" for no or a foreign conversation; "Message content is required" for text that is blank under `strip`; otherwise exactly one stored row with the stripped content, the conversation's `updated_at` bumped, the next message id advanced, and the row's dictionary broadcast to its room |
| Routes.Store.AppendMessage | routes.py:337-343 | the commit: the row added at the end, the next id advanced, the conversation's `updated_at` set, participants untouched |
| Routes.Store.HandleTyping | routes.py:348-366 | relayed exactly for a participant, to the conversation's room without the sender, carrying the sender's id and name and the conversation id as received |
| ChatClient.PreviewText | static/js/chat.js:277-286 | voice shows the label as stored in the file (U+F8FF U+00FC U+00E9 U+00A7 then " Voice message"); text of at most 50 characters is shown whole; longer text shows its first 50 characters and "..." |
| ChatClient.IsActiveAsWritten | static/js/chat.js:267 | `===` as written: a message's numeric id matches only a numeric active id with the same value |
| ChatClient.IsActive | static/js/chat.js:267 | the comparison on the id's value: true exactly when the active id is the message's id as a number or as a string, and whenever the written test holds |
| ChatClient.SidebarConversationMissesLiveMessages | static/js/chat.js:80-81 | with a conversation opened from the sidebar (a string id) no live message matches as written, while the value comparison matches exactly that conversation's messages; for a numeric active id the two agree |
| ChatClient.StepRooms | static/js/chat.js:118-141 | one switch joins the new room and leaves just the previous one, if any |
| ChatClient.RoomsConcat | static/js/chat.js:118-141 | the joined and left rooms of two event runs are those of each run, in order |
| ChatClient.SwitchTraceRooms | static/js/chat.js:118-141 | over any sequence of switches each selected room is joined once and in order, and each previously active room is left once, in order |
| ChatClient.ChatApp.constructor | static/js/chat.js:3-14 | no conversation, not typing, no recorder, empty chunks and logs |
| ChatClient.ChatApp.SelectConversation | static/js/chat.js:118-157 | leave the previous room if there was one, make the new conversation active, join its room and request its history; typing, recorder and view untouched |
| ChatClient.ChatApp.LoadMessages | static/js/chat.js:159-161 | the history request for the conversation is issued |
| ChatClient.ChatApp.OnHistoryResponse | static/js/chat.js:159-173 | a 2xx response replaces the list whatever is active; a non-2xx gives "Failed to load messages", an unreadable one "Error loading messages"; nothing else changes |
| ChatClient.ChatApp.DisplayMessages | static/js/chat.js:175-184 | the list becomes exactly the given messages, in order |
| ChatClient.ChatApp.AppendMessage | static/js/chat.js:186-190 | the message is added at the end |
| ChatClient.ChatApp.HandleNewMessage | static/js/chat.js:266-275 | appended exactly when `IsActive` holds for its conversation; the preview of its conversation updated in every case |
| ChatClient.ChatApp.UpdateConversationPreview | static/js/chat.js:277-286 | only a conversation with a preview element gets the new preview text |
| ChatClient.ChatApp.SendMessage | static/js/chat.js:248-264 | blank input or no conversation: nothing emitted; else one text message with the trimmed input, the input cleared, and the typing burst ended with its `typing: false` |
| ChatClient.ChatApp.OnInput | static/js/chat.js:58-60 | the input takes the new value and the typing rule runs |
| ChatClient.ChatApp.HandleTyping | static/js/chat.js:293-308 | with a conversation, `typing: true` only at the start of a burst and the timer re-armed; without one nothing happens |
| ChatClient.ChatApp.StopTyping | static/js/chat.js:310-319 | `typing: false` only when a burst was on; the flag and timer end cleared |
| ChatClient.ChatApp.OnTypingTimeout | static/js/chat.js:305-307 | the armed timer ends the burst with one `typing: false` to the active conversation |
| ChatClient.ChatApp.HandleUserTyping | static/js/chat.js:321-333 | only another user's notice whose id is identical (`===`, same kind and value) to the active one changes the indicator: shown with "name is typing..." for true, hidden for false |
| ChatClient.ChatApp.PerformSearch | static/js/chat.js:340-346 | a blank query sends nothing; any other is sent as typed |
| ChatClient.ChatApp.ToggleVoiceRecording | static/js/chat.js:451-458 | while recording it stops; otherwise it asks for the microphone |
| ChatClient.ChatApp.OnMicrophoneGranted | static/js/chat.js:458-472 | a new recorder is recording with no chunks |
| ChatClient.ChatApp.OnMicrophoneDenied | static/js/chat.js:474-477 | "Could not access microphone" and nothing else |
| ChatClient.ChatApp.StopRecording | static/js/chat.js:499-504 | a recording recorder becomes inactive; any other state is kept |
| ChatClient.ChatApp.CancelRecording | static/js/chat.js:506-512 | as stop, and the chunks gathered so far are dropped |
| ChatClient.ChatApp.OnDataAvailable | static/js/chat.js:462-464 | the chunk is added at the end |
| ChatClient.ChatApp.OnRecorderStopped | static/js/chat.js:466-469 | the recording is processed |
| ChatClient.ChatApp.ProcessRecording | static/js/chat.js:519-530 | no chunks: no upload; otherwise one upload of all chunks in order as "voice_message.webm", audio/webm |
| ChatClient.ChatApp.OnUploadResponse | static/js/chat.js:532-551 | success sends one voice message with the stored file to whichever conversation is active now; failures give their alert and send nothing |
| ChatScenarios.SwitchSequence | static/js/chat.js:118-161 | any sequence of selections joins every selected room, leaves every one but the last, and fetches each history once, in order |
| ChatScenarios.LateHistoryOverwrites | static/js/chat.js:159-173 | a late history of the previous conversation replaces the list while the new one is active |
| ChatScenarios.LiveMessageBeforeHistory | static/js/chat.js:159-190 | under `IsActive`, a live message shown before the history arrives is wiped by it |
| ChatScenarios.MessageForLeftConversation | static/js/chat.js:266-286 | a message for a conversation the user left leaves the list alone but refreshes that conversation's preview |
| ChatScenarios.TypingBurst | static/js/chat.js:293-319 | any non-empty burst of keystrokes sends exactly one `typing: true` and, on timeout, one `typing: false` |
| ChatScenarios.TypeThenSend | static/js/chat.js:248-319 | sending during a burst sends `typing: true`, the trimmed message, then `typing: false`, and no timer is left |
| ChatScenarios.StaleTypingStopAfterSwitch | static/js/chat.js:118-157 | typing in one conversation and switching before the timeout sends the `typing: false` to the new conversation and never to the old |
| ChatScenarios.VoiceMessageSent | static/js/chat.js:451-551 | start, stop, data, upload success: exactly one upload of all chunks and one voice message to the active conversation |
| ChatScenarios.SilentRecordingNotUploaded | static/js/chat.js:519-520 | a recording with no data issues no upload and sends nothing |
| ChatScenarios.CancelThenFinalChunkSends | static/js/chat.js:506-530 | a chunk delivered after a cancel and before the stop callback is uploaded and then sent |
| ChatScenarios.CancelDropsEarlyChunks | static/js/chat.js:506-520 | chunks delivered before a cancel are dropped and nothing is uploaded; the page starts its recorder without a timeslice (chat.js:471), so this order does not arise there and a real cancel goes the way of `CancelThenFinalChunkSends` |
| ChatScenarios.UploadFailureSendsNothing | static/js/chat.js:545-547 | a rejected upload sends no message and shows "Failed to upload voice message" |
| ChatScenarios.VoiceFollowsActiveConversation | static/js/chat.js:534-544 | a voice message recorded in one conversation is sent to the conversation active when the upload completes |
| ChatScenarios.MicrophoneRefused | static/js/chat.js:451-477 | a refused microphone leaves no recorder, one microphone request and one alert |
| ChatScenarios.VoiceWithoutConversationRejected | routes.py:318-320 | a voice message uploaded with no conversation open is answered "Unauthorized" and nothing is stored |
| ChatScenarios.Deliver | routes.py:304-346 | a participant's text message that is not blank under `strip` is stored and broadcast with its stripped content |
| ChatScenarios.BlankForBoth | routes.py:308 | over the ASCII whitespace modelled, text that `trim` finds blank `strip` finds blank too |
| ChatScenarios.SentMessageComesBack | routes.py:304-346 | a message typed in a new group conversation, opened from the sidebar, is stored once with the stripped text and comes back to the author's list once, with the author's name (under `IsActive`; see "Left out") |
| ChatScenarios.UnknownParticipantRefused | routes.py:96-117 | a conversation listing an id with no account is refused with an integrity error at commit, and no participant row is stored |
| ChatScenarios.SeparatorOnlyMessageRefused | routes.py:308-324 | a message of only U+001C is sent by the page and answered "Message content is required"; nothing is stored |

## Findings

| source | as written | input that shows it | evidently intended | confidence | as-written member | corrected member |
|---|---|---|---|---|---|---|
| static/js/chat.js:267 | `message.conversation_id === this.currentConversationId`, where the active id read from `dataset.conversationId` (chat.js:80-81) is a string and the message's id from `Message.to_dict` (models.py:117) is a number | open conversation 1 from the sidebar (active id "1"); a `new_message` with `conversation_id` 1 arrives: "1" === 1 is false, so the message is not appended | the open conversation's live messages are appended | not executed | ChatClient.IsActiveAsWritten (ChatClient.SidebarConversationMissesLiveMessages) | ChatClient.IsActive |

## Left out

- Rendering: HTML construction, escaping, emoji replacement, timestamps, scrolling, modals and mobile layout. The model keeps only the data the handlers put in the DOM.
- `bindEvents`' wiring, except the input event (`OnInput`). The 300 ms search debounce is timing and is not modelled; `PerformSearch` is the call that fires.
- `displaySearchResults`, `highlightSearchTerm`, `startNewChat`, `updateChatHeader`, `updateConversationTimestamp` (the `origin/main` side of the merge), `formatFileSize`, `playVoiceMessage`, recording-time display, emoji picker and `handleUserStatus`. None of them decides the session state.
- The socket connection, reconnection and the `error` event: the transport is not modelled; `emits` records what is sent.
- Releasing the microphone's tracks in `onstop`: devices are not modelled.
- ChatClient.ChatApp.HandleNewMessage: it uses the value comparison `IsActive`, not the page's `===` (see "Findings"). So the model promises that live messages reach a conversation opened from the sidebar, which the page as written does not do. `IsActiveAsWritten` keeps the page's behaviour.
- ChatScenarios.SentMessageComesBack: the author's copy comes back to the open list only under the value comparison `IsActive`; with the page's `===` a conversation opened from the sidebar (a string id) never shows it (`SidebarConversationMissesLiveMessages`).
- ChatScenarios.LiveMessageBeforeHistory: the live message is shown before the history arrives only under the value comparison `IsActive`; with the page's `===` and a sidebar (string) id it is never shown at all.
- The server's coercion of a string `conversation_id` to an integer in SQL filters and room names: `JsId.key` is the id's value on the server.
- Trimming and lower-casing beyond ASCII whitespace and letters, and JavaScript's UTF-16 `length`/`substring`: strings are sequences of characters. Both trims cover the ASCII ranges only: JavaScript's `trim` and Python's `strip` also remove non-ASCII spaces (U+00A0, U+2028 and others), and Python's also removes U+0085, while JavaScript's also removes U+FEFF, which Python's keeps.
- Text.StripAfterTrim: holds over the ASCII whitespace modelled only; for "a\uFEFF" the page's `trim` sends "a" while `strip` of the raw text keeps the U+FEFF.
- ChatScenarios.BlankForBoth: holds over the ASCII whitespace modelled only; "\uFEFF" is blank to `trim` and not to `strip`.
- `Lower`: ASCII only. No non-ASCII character lower-cases into any of the whitelisted extensions.
- Requests the page cannot make well-formed (a missing `conversation_id`, non-JSON bodies): the model takes typed inputs.
- The `users` table is the constant `Store.users`: registration and account changes are not part of this model, so no modelled operation adds or removes users.
- Routes.Store.CreateConversation: the lookup for an existing direct conversation is the parameter `existingDirect`, not the SQL query; the model does not decide which conversation it finds.
- Routes.Search: the user and message queries (`ilike`, membership subquery, ordering) are the parameters `userMatches` and `messageMatches`; the model states the limit, blankness and type rules over them.
- Routes.HistoryPage: ties between equal `created_at` values may be ordered either way by the database; the model sorts by insertion and states only the order of timestamps.
- Dates are integers; `datetime.utcnow()` is the parameter `now`.
- `upload_voice` and the avatar routes (saving files, generated names, sizes), passwords and login: outside the core.
- Server `join_conversation`/`leave_conversation` and `connect`/`disconnect` (room membership, online flags): the client's join and leave events are modelled, the server's room bookkeeping is not.
- `get_conversations` and its ordering: not part of this model.
