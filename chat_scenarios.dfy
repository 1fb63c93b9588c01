/**
 * Whole runs of the chat page: a fresh `ChatApp` driven through a sequence
 * of user actions and browser callbacks, and what the socket, the HTTP
 * layer and the user see at the end. Each run is one ordering the browser
 * may produce; several of them pin down behaviour the page's code has
 * that a reader of its handlers alone might not expect.
 */
module ChatScenarios {
  import opened Wrappers
  import opened Text
  import opened Wire
  import opened Models
  import opened ChatClient
  import Routes

  /* ---------- conversation switching ---------- */

  /**
   * Selecting `ids` one after another, starting from no conversation: every
   * selected room is joined in order, every room but the last is left, and
   * each selection fetches that conversation's history.
   */
  method SwitchSequence(me: UserId, ids: seq<JsId>) returns (log: seq<Emit>, fetched: seq<Request>)
    ensures JoinedRooms(log) == ids
    ensures ids != [] ==> LeftRooms(log) == ids[..|ids| - 1]
    ensures |fetched| == |ids| && forall i :: 0 <= i < |ids| ==> fetched[i] == FetchHistory(ids[i].key)
  {
    var app := new ChatApp(me, map[]);
    for i := 0 to |ids|
      invariant app.Valid()
      invariant app.emits == SwitchTrace(None, ids[..i])
      invariant app.currentConversationId == LastActive(None, ids[..i])
      invariant |app.requests| == i && forall k :: 0 <= k < i ==> app.requests[k] == FetchHistory(ids[k].key)
    {
      app.SelectConversation(ids[i]);
      assert ids[..i + 1][..i] == ids[..i];
    }
    assert ids[..|ids|] == ids;
    SwitchTraceRooms(None, ids);
    log, fetched := app.emits, app.requests;
  }

  /**
   * The history of `c1` arrives after the user has moved on to `c2` (whose
   * own history came first): the late response replaces the list, so `c2`
   * is active while `c1`'s messages are shown.
   */
  method LateHistoryOverwrites(me: UserId, c1: ConvId, c2: ConvId, h1: seq<MessageDict>, h2: seq<MessageDict>)
    returns (active: Option<JsId>, shown: seq<MessageDict>)
    ensures active == Some(Str(c2)) && shown == h1
  {
    var app := new ChatApp(me, map[]);
    app.SelectConversation(Str(c1));
    app.SelectConversation(Str(c2));
    app.OnHistoryResponse(HistoryOk(h2));
    app.OnHistoryResponse(HistoryOk(h1));
    active, shown := app.currentConversationId, app.messagesList;
  }

  /**
   * A live message that arrives between selecting a conversation in the
   * sidebar and the arrival of its history is shown (once its conversation
   * id is compared by value), then wiped by the history response.
   */
  method LiveMessageBeforeHistory(me: UserId, c: ConvId, m: MessageDict, h: seq<MessageDict>)
    returns (beforeHistory: seq<MessageDict>, afterHistory: seq<MessageDict>)
    requires m.conversationId == c
    ensures beforeHistory == [m]
    ensures afterHistory == h
  {
    var app := new ChatApp(me, map[]);
    app.SelectConversation(Str(c));
    app.HandleNewMessage(m);
    beforeHistory := app.messagesList;
    app.OnHistoryResponse(HistoryOk(h));
    afterHistory := app.messagesList;
  }

  /**
   * A live message for a conversation the user has left does not reach the
   * open list, but it does refresh that conversation's sidebar preview.
   */
  method MessageForLeftConversation(me: UserId, c1: ConvId, c2: ConvId, h: seq<MessageDict>, m: MessageDict)
    returns (shown: seq<MessageDict>, preview: string)
    requires c1 != c2 && m.conversationId == c1 && m.messageType == TextType && |m.content| <= PreviewLimit
    ensures shown == h
    ensures preview == m.content
  {
    var app := new ChatApp(me, map[c1 := "", c2 := ""]);
    app.SelectConversation(Str(c1));
    app.SelectConversation(Str(c2));
    app.OnHistoryResponse(HistoryOk(h));
    app.HandleNewMessage(m);
    shown, preview := app.messagesList, app.previews[c1];
  }

  /* ---------- typing ---------- */

  /**
   * However many keystrokes a burst has, it sends one `typing: true` and,
   * when the timer fires, one `typing: false`.
   */
  method TypingBurst(me: UserId, c: ConvId, keystrokes: seq<string>) returns (log: seq<Emit>)
    requires keystrokes != []
    ensures log == [Typing(Str(c), true), Typing(Str(c), false)]
  {
    var app := new ChatApp(me, map[]);
    app.SelectConversation(Str(c));
    var before := app.emits;
    for i := 0 to |keystrokes|
      invariant app.Valid() && app.currentConversationId == Some(Str(c))
      invariant app.isTyping <==> i > 0
      invariant app.emits == before + if i == 0 then [] else [Typing(Str(c), true)]
    {
      app.OnInput(keystrokes[i]);
    }
    app.OnTypingTimeout();
    log := app.emits[|before|..];
  }

  /**
   * Sending ends the burst at once: the message goes out with the trimmed
   * input between `typing: true` and `typing: false`, and no timer is left
   * to fire.
   */
  method TypeThenSend(me: UserId, c: ConvId, keystrokes: seq<string>) returns (log: seq<Emit>, timerLeft: bool)
    requires keystrokes != [] && !AllSpace(keystrokes[|keystrokes| - 1], JavaScript)
    ensures log == [Typing(Str(c), true), Emit.SendMessage(Some(Str(c)), Trim(keystrokes[|keystrokes| - 1]), TextType, None),
                    Typing(Str(c), false)]
    ensures !timerLeft
  {
    var app := new ChatApp(me, map[]);
    app.SelectConversation(Str(c));
    var before := app.emits;
    for i := 0 to |keystrokes|
      invariant app.Valid() && app.currentConversationId == Some(Str(c))
      invariant app.isTyping <==> i > 0
      invariant i > 0 ==> app.messageInput == keystrokes[i - 1]
      invariant app.emits == before + if i == 0 then [] else [Typing(Str(c), true)]
    {
      app.OnInput(keystrokes[i]);
    }
    app.SendMessage();
    log, timerLeft := app.emits[|before|..], app.typingTimerArmed;
  }

  /**
   * Typing in `c1` and switching to `c2` before the timer fires: the timer's
   * `typing: false` goes to `c2`, and `c1`'s room is never told that typing
   * stopped.
   */
  method StaleTypingStopAfterSwitch(me: UserId, c1: ConvId, c2: ConvId, text: string) returns (log: seq<Emit>)
    requires c1 != c2
    ensures log == [JoinConversation(Str(c1)), Typing(Str(c1), true), LeaveConversation(Str(c1)),
                    JoinConversation(Str(c2)), Typing(Str(c2), false)]
    ensures Typing(Str(c1), false) !in log
  {
    var app := new ChatApp(me, map[]);
    app.SelectConversation(Str(c1));
    app.OnInput(text);
    app.SelectConversation(Str(c2));
    app.OnTypingTimeout();
    log := app.emits;
  }

  /* ---------- voice messages ---------- */

  /**
   * Record, stop, receive the recorder's data, upload: one upload carries
   * every chunk in order, and one voice message with the stored file goes to
   * the active conversation.
   */
  method VoiceMessageSent(me: UserId, c: ConvId, chunks: seq<Chunk>, file: FileData)
    returns (calls: seq<Request>, sent: seq<Emit>)
    requires chunks != []
    ensures calls == [OpenMicrophone, UploadVoice(chunks, VoiceFileName, VoiceMimeType)]
    ensures sent == [Emit.SendMessage(Some(Str(c)), "", VoiceType, Some(file))]
  {
    var app := new ChatApp(me, map[]);
    app.SelectConversation(Str(c));
    var r0, e0 := app.requests, app.emits;
    app.ToggleVoiceRecording();
    app.OnMicrophoneGranted();
    app.ToggleVoiceRecording();
    for i := 0 to |chunks|
      invariant app.recordingChunks == chunks[..i]
      invariant app.requests == r0 + [OpenMicrophone] && app.emits == e0
      invariant app.currentConversationId == Some(Str(c))
    {
      app.OnDataAvailable(chunks[i]);
      assert chunks[..i + 1] == chunks[..i] + [chunks[i]];
    }
    assert chunks[..|chunks|] == chunks;
    app.OnRecorderStopped();
    app.OnUploadResponse(UploadOk(file));
    calls, sent := app.requests[|r0|..], app.emits[|e0|..];
  }

  /** A recording that produced no data uploads nothing and sends nothing. */
  method SilentRecordingNotUploaded(me: UserId, c: ConvId) returns (calls: seq<Request>, sent: seq<Emit>)
    ensures calls == [OpenMicrophone]
    ensures sent == []
  {
    var app := new ChatApp(me, map[]);
    app.SelectConversation(Str(c));
    var r0, e0 := app.requests, app.emits;
    app.ToggleVoiceRecording();
    app.OnMicrophoneGranted();
    app.ToggleVoiceRecording();
    app.OnRecorderStopped();
    calls, sent := app.requests[|r0|..], app.emits[|e0|..];
  }

  /**
   * Cancelling empties the chunk list, but a recorder that delivers its data
   * only when stopped (the default without a timeslice) hands over its chunk
   * after the cancel and before the stop callback: that chunk is uploaded
   * and, once the upload succeeds, sent as a voice message.
   */
  method CancelThenFinalChunkSends(me: UserId, c: ConvId, chunk: Chunk, file: FileData)
    returns (calls: seq<Request>, sent: seq<Emit>)
    ensures calls == [OpenMicrophone, UploadVoice([chunk], VoiceFileName, VoiceMimeType)]
    ensures sent == [Emit.SendMessage(Some(Str(c)), "", VoiceType, Some(file))]
  {
    var app := new ChatApp(me, map[]);
    app.SelectConversation(Str(c));
    var r0, e0 := app.requests, app.emits;
    app.ToggleVoiceRecording();
    app.OnMicrophoneGranted();
    app.CancelRecording();
    app.OnDataAvailable(chunk);
    assert app.recordingChunks == [chunk];
    app.OnRecorderStopped();
    assert app.requests == r0 + [OpenMicrophone] + [UploadVoice([chunk], VoiceFileName, VoiceMimeType)];
    app.OnUploadResponse(UploadOk(file));
    calls, sent := app.requests[|r0|..], app.emits[|e0|..];
  }

  /**
   * Chunks the recorder delivers before a cancel are dropped by it: `cancelRecording`
   * clears them (chat.js:510) and the stop handler then finds nothing to upload (chat.js:520).
   * The page starts the recorder without a timeslice (chat.js:471), so a browser
   * delivers data only once recording stops and this order does not arise there:
   * every real cancel goes the way of `CancelThenFinalChunkSends`.
   */
  method CancelDropsEarlyChunks(me: UserId, c: ConvId, early: seq<Chunk>) returns (calls: seq<Request>)
    ensures calls == [OpenMicrophone]
  {
    var app := new ChatApp(me, map[]);
    app.SelectConversation(Str(c));
    var r0 := app.requests;
    app.ToggleVoiceRecording();
    app.OnMicrophoneGranted();
    for i := 0 to |early|
      invariant app.requests == r0 + [OpenMicrophone]
    {
      app.OnDataAvailable(early[i]);
    }
    app.CancelRecording();
    app.OnRecorderStopped();
    calls := app.requests[|r0|..];
  }

  /** A rejected upload sends no message and tells the user. */
  method UploadFailureSendsNothing(me: UserId, c: ConvId, chunk: Chunk) returns (sent: seq<Emit>, shown: seq<string>)
    ensures sent == []
    ensures shown == ["Failed to upload voice message"]
  {
    var app := new ChatApp(me, map[]);
    app.SelectConversation(Str(c));
    var e0 := app.emits;
    app.ToggleVoiceRecording();
    app.OnMicrophoneGranted();
    app.ToggleVoiceRecording();
    app.OnDataAvailable(chunk);
    app.OnRecorderStopped();
    app.OnUploadResponse(UploadRejected);
    sent, shown := app.emits[|e0|..], app.alerts;
  }

  /**
   * The upload response decides the target: a recording made in `c1` whose
   * upload completes after the user switched to `c2` is sent to `c2`.
   */
  method VoiceFollowsActiveConversation(me: UserId, c1: ConvId, c2: ConvId, chunk: Chunk, file: FileData)
    returns (last: Emit)
    requires c1 != c2
    ensures last == Emit.SendMessage(Some(Str(c2)), "", VoiceType, Some(file))
  {
    var app := new ChatApp(me, map[]);
    app.SelectConversation(Str(c1));
    app.ToggleVoiceRecording();
    app.OnMicrophoneGranted();
    app.ToggleVoiceRecording();
    app.OnDataAvailable(chunk);
    app.OnRecorderStopped();
    app.SelectConversation(Str(c2));
    app.OnUploadResponse(UploadOk(file));
    last := app.emits[|app.emits| - 1];
  }

  /** A refused microphone leaves no recorder and shows one alert. */
  method MicrophoneRefused(me: UserId) returns (state: RecorderState, calls: seq<Request>, shown: seq<string>)
    ensures state == NoRecorder
    ensures calls == [OpenMicrophone]
    ensures shown == ["Could not access microphone"]
  {
    var app := new ChatApp(me, map[]);
    app.ToggleVoiceRecording();
    app.OnMicrophoneDenied();
    state, calls, shown := app.recorder, app.requests, app.alerts;
  }

  /* ---------- client and server together ---------- */

  /**
   * A voice message recorded with no conversation open is sent with no
   * target, and the server answers the sender with "Unauthorized" and
   * stores nothing.
   */
  method VoiceWithoutConversationRejected(me: User, chunk: Chunk, file: FileData, now: int)
    returns (reply: Routes.SendReply, stored: seq<MessageRow>)
    ensures reply == Routes.ErrorToSender("Unauthorized")
    ensures stored == []
  {
    var app := new ChatApp(me.id, map[]);
    app.ToggleVoiceRecording();
    app.OnMicrophoneGranted();
    app.ToggleVoiceRecording();
    app.OnDataAvailable(chunk);
    app.OnRecorderStopped();
    app.OnUploadResponse(UploadOk(file));
    var e := app.emits[|app.emits| - 1];
    assert e == Emit.SendMessage(None, "", VoiceType, Some(file));
    var server := new Routes.Store({me.id});
    reply := server.HandleSendMessage(me, KeyOf(e.target), e.content, e.messageType, e.fileData, now);
    stored := server.messages;
  }

  /** A store holding one new group conversation of `me` and `other`, and no messages. */
  method NewGroup(me: UserId, other: UserId, title: string, now: int) returns (server: Routes.Store, cid: ConvId)
    ensures fresh(server) && server.Valid()
    ensures server.IsParticipant(cid, me) && server.messages == []
  {
    server := new Routes.Store({me, other});
    var created := server.CreateConversation(me, [other], true, title, None, now);
    assert created.Created? by {
      assert !(exists u :: u != me && multiset([other])[u] > 1);
    }
    cid := created.id;
    assert ParticipantRow(cid, me) == Routes.NewParticipantRows(cid, me, [other])[0];
  }

  /**
   * A hand-made request naming an id that no account has is refused at
   * commit by the users foreign key, and nothing is stored.
   */
  method UnknownParticipantRefused(me: UserId, stranger: UserId, title: string, now: int)
    returns (r: Routes.CreateResult, stored: seq<ParticipantRow>)
    requires stranger != me
    ensures r == Routes.IntegrityError && stored == []
  {
    var server := new Routes.Store({me});
    r := server.CreateConversation(me, [stranger], true, title, None, now);
    stored := server.participants;
  }

  /** A page with `cid` open from the sidebar and its (empty) history shown, on which `text` is typed and sent. */
  method TypeAndSend(me: UserId, cid: ConvId, text: string) returns (app: ChatApp, e: Emit)
    requires !AllSpace(text, JavaScript)
    ensures fresh(app) && app.Valid()
    ensures app.currentConversationId == Some(Str(cid)) && app.messagesList == []
    ensures e == Emit.SendMessage(Some(Str(cid)), Trim(text), TextType, None)
  {
    app := new ChatApp(me, map[]);
    app.SelectConversation(Str(cid));
    app.OnHistoryResponse(HistoryOk([]));
    app.OnInput(text);
    var before := |app.emits|;
    app.SendMessage();
    e := app.emits[before];
  }

  /**
   * Over the ASCII whitespace modelled here, whatever JavaScript's `trim`
   * treats as whitespace Python's `strip` does too. (U+FEFF is the exception
   * beyond ASCII: blank to `trim`, not to `strip`.)
   */
  lemma BlankForBoth(s: string)
    ensures AllSpace(s, JavaScript) ==> AllSpace(s, Python)
  {
  }

  /**
   * The server's side of one text message `content` from a participant of
   * `cid`: the row stored and the dictionary broadcast both carry the
   * server's `strip` of it.
   */
  method Deliver(server: Routes.Store, me: User, cid: ConvId, content: string, now: int)
    returns (row: MessageRow, m: MessageDict)
    requires server.Valid() && server.IsParticipant(cid, me.id) && !AllSpace(content, Python)
    modifies server
    ensures server.messages == old(server.messages) + [row]
    ensures row.content == Strip(content) && row.senderId == me.id && row.messageType == TextType
    ensures m.conversationId == cid && m.content == Strip(content) && m.senderId == me.id
    ensures m.senderUsername == me.username && m.messageType == TextType
  {
    var reply := server.HandleSendMessage(me, Some(cid), content, TextType, None, now);
    row := server.messages[|server.messages| - 1];
    m := reply.message;
  }

  /**
   * The author of a new group conversation types a message and sends it; the
   * server stores it once and broadcasts it to the room, and the broadcast,
   * arriving back at the author's page, is appended to the open list. Both
   * copies hold the server's `strip` of the typed text: the client's `trim`
   * before it changes nothing.
   */
  method SentMessageComesBack(me: User, other: UserId, title: string, text: string, now: int)
    returns (stored: seq<MessageRow>, shown: seq<MessageDict>)
    requires !AllSpace(text, Python)
    ensures |stored| == 1 && stored[0].content == Strip(text) && stored[0].senderId == me.id
    ensures |shown| == 1 && shown[0].content == Strip(text) && shown[0].senderId == me.id
    ensures shown[0].senderUsername == me.username && shown[0].messageType == TextType
  {
    BlankForBoth(text);
    StripAfterTrim(text);
    var server, cid := NewGroup(me.id, other, title, now);
    var app, e := TypeAndSend(me.id, cid, text);
    var row, m := Deliver(server, me, cid, Trim(text), now);
    stored := server.messages;
    app.HandleNewMessage(m);
    shown := app.messagesList;
  }

  /**
   * A message made only of an information separator (U+001C) passes the
   * page's blank check and is sent, but the server's `strip` empties it:
   * the author gets "Message content is required" and nothing is stored.
   */
  method SeparatorOnlyMessageRefused(me: User, other: UserId, title: string, now: int)
    returns (sent: Emit, reply: Routes.SendReply, stored: seq<MessageRow>)
    ensures sent.SendMessage? && sent.content == "\U{1C}"
    ensures reply == Routes.ErrorToSender("Message content is required")
    ensures stored == []
  {
    TrimKeepsSeparators();
    var server, cid := NewGroup(me.id, other, title, now);
    var app;
    app, sent := TypeAndSend(me.id, cid, "\U{1C}");
    reply := server.HandleSendMessage(me, KeyOf(sent.target), sent.content, sent.messageType, sent.fileData, now);
    stored := server.messages;
  }
}
