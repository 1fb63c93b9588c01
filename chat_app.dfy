/**
 * The browser client's session state (`ChatApp`): the active conversation,
 * the message list on screen, the local typing debounce, the incoming typing
 * indicator, the conversation-list previews and the voice recorder.
 *
 * The client runs on one event loop and each handler runs to completion, so
 * every handler is a method, and each continuation after an `await`, each
 * timer expiry and each recorder callback is a method of its own. What the
 * client sends out is recorded in three append-only logs: `emits` (socket
 * events), `requests` (HTTP requests and the microphone request) and
 * `alerts` (the error notices shown to the user).
 */
module ChatClient {
  import opened Wrappers
  import opened Text
  import opened Wire

  const PreviewLimit := 50
  /**
   * The voice preview label exactly as the script file holds it: the four
   * characters U+F8FF U+00FC U+00E9 U+00A7 (the UTF-8 bytes of the
   * microphone emoji U+1F3A4 read as Mac OS Roman and saved again as UTF-8),
   * a space and "Voice message".
   */
  const VoicePreviewLabel := "\U{F8FF}\U{00FC}\U{00E9}\U{00A7} Voice message"
  const VoiceFileName := "voice_message.webm"
  const VoiceMimeType := "audio/webm"

  datatype RecorderState = NoRecorder | Recording | Inactive

  /** Requests that leave the client other than socket events. */
  datatype Request =
    | FetchHistory(conversationId: ConvId)
    | OpenMicrophone
    | UploadVoice(parts: seq<Chunk>, fileName: string, mimeType: string)
    | SearchQuery(query: string)

  /** How a history request ends: a JSON body with status 2xx, another status, or a thrown error. */
  datatype HistoryResponse = HistoryOk(messages: seq<MessageDict>) | HistoryRejected | HistoryUnreadable

  datatype UploadResponse = UploadOk(file: FileData) | UploadRejected | UploadUnreachable

  /** The preview line of the conversation list for a new message. */
  function PreviewText(content: string, messageType: string): (r: string)
    ensures messageType == VoiceType ==> r == VoicePreviewLabel
    ensures messageType != VoiceType ==> |r| <= PreviewLimit + 3
    ensures messageType != VoiceType && |content| > PreviewLimit ==> |r| == PreviewLimit + 3
    ensures messageType != VoiceType && |content| <= PreviewLimit ==> r == content
    ensures messageType != VoiceType && |content| > PreviewLimit ==>
      r[..PreviewLimit] == content[..PreviewLimit] && r[PreviewLimit..] == "..."
  {
    if messageType == VoiceType then VoicePreviewLabel
    else if |content| > PreviewLimit then content[..PreviewLimit] + "..."
    else content
  }

  /** The socket events of one conversation switch: leave the previous room if any, then join. */
  function SwitchEmits(previous: Option<JsId>, next: JsId): seq<Emit> {
    (if previous.Some? then [LeaveConversation(previous.value)] else []) + [JoinConversation(next)]
  }

  /** The conversation active after switching from `previous` through `ids` in turn. */
  function LastActive(previous: Option<JsId>, ids: seq<JsId>): Option<JsId> {
    if ids == [] then previous else Some(ids[|ids| - 1])
  }

  /** The socket events of switching from `previous` through each of `ids` in turn. */
  function SwitchTrace(previous: Option<JsId>, ids: seq<JsId>): seq<Emit> {
    if ids == [] then []
    else SwitchTrace(previous, ids[..|ids| - 1]) + SwitchEmits(LastActive(previous, ids[..|ids| - 1]), ids[|ids| - 1])
  }

  /** The rooms left, in order. */
  function LeftRooms(es: seq<Emit>): seq<JsId> {
    if es == [] then []
    else (if es[0].LeaveConversation? then [es[0].conversationId] else []) + LeftRooms(es[1..])
  }

  /** The rooms joined, in order. */
  function JoinedRooms(es: seq<Emit>): seq<JsId> {
    if es == [] then []
    else (if es[0].JoinConversation? then [es[0].conversationId] else []) + JoinedRooms(es[1..])
  }

  lemma {:induction false} RoomsConcat(a: seq<Emit>, b: seq<Emit>)
    ensures LeftRooms(a + b) == LeftRooms(a) + LeftRooms(b)
    ensures JoinedRooms(a + b) == JoinedRooms(a) + JoinedRooms(b)
  {
    if a != [] {
      assert (a + b)[1..] == a[1..] + b;
      RoomsConcat(a[1..], b);
    } else {
      assert a + b == b;
    }
  }

  lemma StepRooms(previous: Option<JsId>, next: JsId)
    ensures JoinedRooms(SwitchEmits(previous, next)) == [next]
    ensures LeftRooms(SwitchEmits(previous, next)) == OptionToSeq(previous)
  {
    var step := SwitchEmits(previous, next);
    assert JoinedRooms([JoinConversation(next)]) == [next];
    assert LeftRooms([JoinConversation(next)]) == [];
    if previous.Some? {
      assert step[1..] == [JoinConversation(next)];
    }
  }

  function OptionToSeq(o: Option<JsId>): seq<JsId> {
    if o.Some? then [o.value] else []
  }

  /**
   * Over any sequence of switches every selected conversation is joined, in
   * order, and exactly the previously active ones are left, once each, in
   * the order they were left.
   */
  lemma {:induction false} SwitchTraceRooms(previous: Option<JsId>, ids: seq<JsId>)
    ensures JoinedRooms(SwitchTrace(previous, ids)) == ids
    ensures LeftRooms(SwitchTrace(previous, ids)) == if ids == [] then [] else OptionToSeq(previous) + ids[..|ids| - 1]
  {
    if ids != [] {
      var init := ids[..|ids| - 1];
      var last := ids[|ids| - 1];
      SwitchTraceRooms(previous, init);
      var step := SwitchEmits(LastActive(previous, init), last);
      RoomsConcat(SwitchTrace(previous, init), step);
      StepRooms(LastActive(previous, init), last);
      assert ids == init + [last];
      if init != [] {
        assert init == init[..|init| - 1] + [init[|init| - 1]];
      }
    }
  }

  /**
   * The test `message.conversation_id === this.currentConversationId` of
   * `handleNewMessage`, as written: the message's id is a number, so it is
   * strictly equal only to an active id held as a number.
   */
  function IsActiveAsWritten(current: Option<JsId>, m: ConvId): (b: bool)
    ensures b <==> current.Some? && current.value.Num? && current.value.key == m
  {
    current == Some(Num(m))
  }

  /** The test evidently intended: the message belongs to the active conversation, whatever form its id has. */
  function IsActive(current: Option<JsId>, m: ConvId): (b: bool)
    ensures b <==> current == Some(Num(m)) || current == Some(Str(m))
    ensures IsActiveAsWritten(current, m) ==> b
  {
    current.Some? && current.value.key == m
  }

  /**
   * Every conversation the user opens from the sidebar is held as a string,
   * so as written no live message of it is ever appended; the corrected test
   * accepts it, and agrees with the written one on numeric ids.
   */
  lemma SidebarConversationMissesLiveMessages(c: ConvId, m: ConvId)
    ensures !IsActiveAsWritten(Some(Str(c)), m)
    ensures IsActive(Some(Str(c)), m) <==> m == c
    ensures IsActive(Some(Num(c)), m) <==> IsActiveAsWritten(Some(Num(c)), m)
  {
  }

  /** The `typing: false` event that ending a typing burst sends, if any. */
  function StopEmits(typing: bool, current: Option<JsId>): seq<Emit> {
    if typing && current.Some? then [Typing(current.value, false)] else []
  }

  class ChatApp {
    const currentUserId: UserId
    /** The active conversation's id, in the form it was handed to `selectConversation`. */
    var currentConversationId: Option<JsId>
    var isTyping: bool
    /** Whether `typingTimeout` holds a live 2000 ms timer. */
    var typingTimerArmed: bool
    var recorder: RecorderState
    var recordingChunks: seq<Chunk>
    /** The text of the message input box. */
    var messageInput: string
    /** The messages shown in the message list, in display order. */
    var messagesList: seq<MessageDict>
    var typingIndicatorShown: bool
    var typingText: string
    /** The preview line of each conversation that has one in the sidebar. */
    var previews: map<ConvId, string>
    var emits: seq<Emit>
    var requests: seq<Request>
    var alerts: seq<string>

    /** The typing timer is live exactly while the local user is marked typing, which needs a conversation. */
    ghost predicate Valid()
      reads this
    {
      typingTimerArmed == isTyping && (isTyping ==> currentConversationId.Some?)
    }

    twostate predicate TypingUnchanged() reads this {
      unchanged(this`isTyping, this`typingTimerArmed)
    }

    twostate predicate RecorderUnchanged() reads this {
      unchanged(this`recorder, this`recordingChunks)
    }

    twostate predicate ViewUnchanged() reads this {
      unchanged(this`messageInput, this`messagesList, this`typingIndicatorShown, this`typingText, this`previews)
    }

    constructor (userId: UserId, previewElements: map<ConvId, string>)
      ensures Valid()
      ensures currentUserId == userId && currentConversationId == None
      ensures !isTyping && recorder == NoRecorder && recordingChunks == []
      ensures messageInput == "" && messagesList == [] && !typingIndicatorShown && typingText == ""
      ensures previews == previewElements
      ensures emits == [] && requests == [] && alerts == []
    {
      currentUserId := userId;
      currentConversationId := None;
      isTyping, typingTimerArmed := false, false;
      recorder, recordingChunks := NoRecorder, [];
      messageInput, messagesList := "", [];
      typingIndicatorShown, typingText := false, "";
      previews := previewElements;
      emits, requests, alerts := [], [], [];
    }

    /* ---------- conversation switching and history ---------- */

    /** `selectConversation`: leave the old room, make `conversationId` active, join its room, load history. */
    method SelectConversation(conversationId: JsId)
      requires Valid()
      modifies this
      ensures Valid()
      ensures currentConversationId == Some(conversationId)
      ensures emits == old(emits) + SwitchEmits(old(currentConversationId), conversationId)
      ensures requests == old(requests) + [FetchHistory(conversationId.key)]
      ensures TypingUnchanged() && RecorderUnchanged() && ViewUnchanged() && alerts == old(alerts)
    {
      if currentConversationId.Some? {
        emits := emits + [LeaveConversation(currentConversationId.value)];
      }
      currentConversationId := Some(conversationId);
      emits := emits + [JoinConversation(conversationId)];
      LoadMessages(conversationId);
    }

    /** `loadMessages`, up to its `await`: the history request goes out. */
    method LoadMessages(conversationId: JsId)
      modifies this`requests
      ensures requests == old(requests) + [FetchHistory(conversationId.key)]
    {
      requests := requests + [FetchHistory(conversationId.key)];
    }

    /**
     * The rest of `loadMessages`, when its response arrives. Nothing checks
     * which conversation is active now: a 2xx response replaces the list.
     */
    method OnHistoryResponse(response: HistoryResponse)
      requires Valid()
      modifies this
      ensures Valid()
      ensures messagesList == if response.HistoryOk? then response.messages else old(messagesList)
      ensures response.HistoryOk? ==> alerts == old(alerts)
      ensures response.HistoryRejected? ==> alerts == old(alerts) + ["Failed to load messages"]
      ensures response.HistoryUnreadable? ==> alerts == old(alerts) + ["Error loading messages"]
      ensures unchanged(this`currentConversationId, this`emits, this`requests)
      ensures TypingUnchanged() && RecorderUnchanged()
      ensures unchanged(this`messageInput, this`typingIndicatorShown, this`typingText, this`previews)
    {
      match response
      case HistoryOk(ms) => DisplayMessages(ms);
      case HistoryRejected => alerts := alerts + ["Failed to load messages"];
      case HistoryUnreadable => alerts := alerts + ["Error loading messages"];
    }

    /** `displayMessages`: empty the list, then append each message in order. */
    method DisplayMessages(ms: seq<MessageDict>)
      modifies this`messagesList
      ensures messagesList == ms
    {
      messagesList := [];
      for i := 0 to |ms|
        invariant messagesList == ms[..i]
      {
        AppendMessage(ms[i]);
        assert ms[..i + 1] == ms[..i] + [ms[i]];
      }
      assert ms[..|ms|] == ms;
    }

    method AppendMessage(m: MessageDict)
      modifies this`messagesList
      ensures messagesList == old(messagesList) + [m]
    {
      messagesList := messagesList + [m];
    }

    /* ---------- live messages ---------- */

    /**
     * `handleNewMessage` (HEAD side of the merge): append only a message of
     * the active conversation, with the corrected test `IsActive`; update the
     * sidebar preview in every case.
     */
    method HandleNewMessage(m: MessageDict)
      requires Valid()
      modifies this
      ensures Valid()
      ensures messagesList == if IsActive(old(currentConversationId), m.conversationId)
        then old(messagesList) + [m] else old(messagesList)
      ensures previews == if m.conversationId in old(previews)
        then old(previews)[m.conversationId := PreviewText(m.content, m.messageType)] else old(previews)
      ensures unchanged(this`currentConversationId, this`emits, this`requests, this`alerts)
      ensures TypingUnchanged() && RecorderUnchanged()
      ensures unchanged(this`messageInput, this`typingIndicatorShown, this`typingText)
    {
      if IsActive(currentConversationId, m.conversationId) {
        AppendMessage(m);
      }
      UpdateConversationPreview(m.conversationId, m.content, m.messageType);
    }

    /** `updateConversationPreview`: only a conversation with a preview element is updated. */
    method UpdateConversationPreview(conversationId: ConvId, content: string, messageType: string)
      modifies this`previews
      ensures previews == if conversationId in old(previews)
        then old(previews)[conversationId := PreviewText(content, messageType)] else old(previews)
    {
      if conversationId in previews {
        previews := previews[conversationId := PreviewText(content, messageType)];
      }
    }

    /* ---------- sending and typing ---------- */

    /**
     * `sendMessage`: with blank input or no active conversation nothing
     * happens; otherwise one text `send_message` with the trimmed input,
     * the input is cleared and the typing burst is ended.
     */
    method SendMessage()
      requires Valid()
      modifies this
      ensures Valid()
      ensures AllSpace(old(messageInput), JavaScript) || old(currentConversationId).None? ==>
        emits == old(emits) && messageInput == old(messageInput) && TypingUnchanged()
      ensures !AllSpace(old(messageInput), JavaScript) && old(currentConversationId).Some? ==>
        && emits == old(emits) + [Emit.SendMessage(old(currentConversationId), Trim(old(messageInput)), TextType, None)]
                   + StopEmits(old(isTyping), old(currentConversationId))
        && messageInput == "" && !isTyping && !typingTimerArmed
      ensures unchanged(this`currentConversationId, this`requests, this`alerts) && RecorderUnchanged()
      ensures unchanged(this`messagesList, this`typingIndicatorShown, this`typingText, this`previews)
    {
      var content := Trim(messageInput);
      if content == [] || currentConversationId.None? {
        return;
      }
      emits := emits + [Emit.SendMessage(currentConversationId, content, TextType, None)];
      messageInput := "";
      StopTyping();
    }

    /** The input box's `input` event: its text becomes `value`, then `handleTyping` runs. */
    method OnInput(value: string)
      requires Valid()
      modifies this
      ensures Valid()
      ensures messageInput == value
      ensures old(currentConversationId).None? ==> emits == old(emits) && TypingUnchanged()
      ensures old(currentConversationId).Some? ==> (isTyping && typingTimerArmed
        && emits == old(emits) + (if old(isTyping) then [] else [Typing(old(currentConversationId).value, true)]))
      ensures unchanged(this`currentConversationId, this`requests, this`alerts) && RecorderUnchanged()
      ensures unchanged(this`messagesList, this`typingIndicatorShown, this`typingText, this`previews)
    {
      messageInput := value;
      HandleTyping();
    }

    /**
     * `handleTyping`: without an active conversation nothing happens;
     * otherwise `typing: true` is sent only when the flag turns on, and the
     * 2000 ms timer is (re)armed.
     */
    method HandleTyping()
      requires Valid()
      modifies this`isTyping, this`typingTimerArmed, this`emits
      ensures Valid()
      ensures old(currentConversationId).None? ==> emits == old(emits) && TypingUnchanged()
      ensures old(currentConversationId).Some? ==> (isTyping && typingTimerArmed
        && emits == old(emits) + (if old(isTyping) then [] else [Typing(old(currentConversationId).value, true)]))
    {
      if currentConversationId.None? {
        return;
      }
      if !isTyping {
        isTyping := true;
        emits := emits + [Typing(currentConversationId.value, true)];
      }
      typingTimerArmed := true;
    }

    /** `stopTyping`: `typing: false` only if the flag was on; the flag and the timer end cleared. */
    method StopTyping()
      requires Valid()
      modifies this`isTyping, this`typingTimerArmed, this`emits
      ensures Valid()
      ensures !isTyping && !typingTimerArmed
      ensures emits == old(emits) + StopEmits(old(isTyping), currentConversationId)
    {
      if isTyping && currentConversationId.Some? {
        isTyping := false;
        emits := emits + [Typing(currentConversationId.value, false)];
      }
      typingTimerArmed := false;
    }

    /** The typing timer fires: it can only be armed, and it runs `stopTyping`. */
    method OnTypingTimeout()
      requires Valid() && typingTimerArmed
      modifies this`isTyping, this`typingTimerArmed, this`emits
      ensures Valid()
      ensures !isTyping && !typingTimerArmed
      ensures emits == old(emits) + [Typing(currentConversationId.value, false)]
    {
      StopTyping();
    }

    /**
     * `handleUserTyping`: only a notice for the active conversation from
     * another user changes the indicator; `true` shows "<name> is typing...",
     * `false` hides it.
     */
    method HandleUserTyping(notice: TypingNotice)
      modifies this`typingIndicatorShown, this`typingText
      ensures Some(notice.conversationId) == currentConversationId && notice.userId != currentUserId ==>
        && typingIndicatorShown == notice.isTyping
        && typingText == if notice.isTyping then notice.username + " is typing..." else old(typingText)
      ensures !(Some(notice.conversationId) == currentConversationId && notice.userId != currentUserId) ==>
        unchanged(this`typingIndicatorShown, this`typingText)
    {
      if Some(notice.conversationId) == currentConversationId && notice.userId != currentUserId {
        if notice.isTyping {
          typingText := notice.username + " is typing...";
          typingIndicatorShown := true;
        } else {
          typingIndicatorShown := false;
        }
      }
    }

    /** `performSearch`, up to its `await`: a blank query sends nothing, any other is sent as typed. */
    method PerformSearch(query: string)
      modifies this`requests
      ensures requests == if AllSpace(query, JavaScript) then old(requests) else old(requests) + [SearchQuery(query)]
    {
      if Trim(query) == [] {
        return;
      }
      requests := requests + [SearchQuery(query)];
    }

    /* ---------- voice recording ---------- */

    /**
     * `toggleVoiceRecording`, up to its `await`: while recording it acts as
     * `stopRecording`; otherwise it asks for the microphone.
     */
    method ToggleVoiceRecording()
      modifies this`recorder, this`requests
      ensures old(recorder) == Recording ==> recorder == Inactive && requests == old(requests)
      ensures old(recorder) != Recording ==> recorder == old(recorder) && requests == old(requests) + [OpenMicrophone]
    {
      if recorder == Recording {
        StopRecording();
        return;
      }
      requests := requests + [OpenMicrophone];
    }

    /** The microphone was granted: a fresh recorder starts with no chunks. */
    method OnMicrophoneGranted()
      modifies this`recorder, this`recordingChunks
      ensures recorder == Recording && recordingChunks == []
    {
      recorder := Recording;
      recordingChunks := [];
    }

    /** The microphone was refused or is missing: an alert, and nothing else changes. */
    method OnMicrophoneDenied()
      modifies this`alerts
      ensures alerts == old(alerts) + ["Could not access microphone"]
    {
      alerts := alerts + ["Could not access microphone"];
    }

    /** `stopRecording`: a recording recorder is stopped; its data and stop events come later. */
    method StopRecording()
      modifies this`recorder
      ensures recorder == if old(recorder) == Recording then Inactive else old(recorder)
    {
      if recorder == Recording {
        recorder := Inactive;
      }
    }

    /** `cancelRecording`: stop as `stopRecording` does, and drop the chunks gathered so far. */
    method CancelRecording()
      modifies this`recorder, this`recordingChunks
      ensures recorder == if old(recorder) == Recording then Inactive else old(recorder)
      ensures recordingChunks == []
    {
      if recorder == Recording {
        recorder := Inactive;
      }
      recordingChunks := [];
    }

    /** The recorder's `dataavailable` callback: the chunk is pushed at the end. */
    method OnDataAvailable(chunk: Chunk)
      modifies this`recordingChunks
      ensures recordingChunks == old(recordingChunks) + [chunk]
    {
      recordingChunks := recordingChunks + [chunk];
    }

    /** The recorder's `stop` callback runs `processRecording`. */
    method OnRecorderStopped()
      modifies this`requests
      ensures requests == if recordingChunks == [] then old(requests)
        else old(requests) + [UploadVoice(recordingChunks, VoiceFileName, VoiceMimeType)]
    {
      ProcessRecording();
    }

    /** `processRecording`, up to its `await`: no chunks, no upload; else one upload of all chunks. */
    method ProcessRecording()
      modifies this`requests
      ensures requests == if recordingChunks == [] then old(requests)
        else old(requests) + [UploadVoice(recordingChunks, VoiceFileName, VoiceMimeType)]
    {
      if |recordingChunks| == 0 {
        return;
      }
      requests := requests + [UploadVoice(recordingChunks, VoiceFileName, VoiceMimeType)];
    }

    /**
     * The rest of `processRecording`: a successful upload sends one voice
     * message to whichever conversation is active now (possibly none).
     */
    method OnUploadResponse(response: UploadResponse)
      modifies this`emits, this`alerts
      ensures response.UploadOk? ==>
        emits == old(emits) + [Emit.SendMessage(currentConversationId, "", VoiceType, Some(response.file))]
        && alerts == old(alerts)
      ensures response.UploadRejected? ==> emits == old(emits) && alerts == old(alerts) + ["Failed to upload voice message"]
      ensures response.UploadUnreachable? ==> emits == old(emits) && alerts == old(alerts) + ["Error uploading voice message"]
    {
      match response
      case UploadOk(file) =>
        emits := emits + [Emit.SendMessage(currentConversationId, "", VoiceType, Some(file))];
      case UploadRejected =>
        alerts := alerts + ["Failed to upload voice message"];
      case UploadUnreachable =>
        alerts := alerts + ["Error uploading voice message"];
    }
  }
}
