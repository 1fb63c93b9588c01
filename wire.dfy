/**
 * Identifiers and the records that travel between the browser client and the
 * server: the JSON of a stored message, typing notices, and the events the
 * client emits on its Socket.IO connection.
 */
module Wire {
  import opened Wrappers

  /** Database keys are positive, so a set id is always truthy in JavaScript. */
  type ConvId = x: int | x > 0 witness 1
  type UserId = x: int | x > 0 witness 1

  /**
   * A conversation id as a JavaScript value on the page: the server's JSON
   * carries numbers, while a `data-conversation-id` attribute yields the
   * decimal string. JavaScript's `===` between two of them is equality of
   * this datatype; string interpolation (URLs, selectors, room names) and the
   * server's queries see only `key`.
   */
  datatype JsId = Num(key: ConvId) | Str(key: ConvId)

  /** The conversation key a `conversation_id` field names on the server, if any. */
  function KeyOf(target: Option<JsId>): (k: Option<ConvId>)
    ensures k.Some? <==> target.Some?
    ensures target.Some? ==> k.value == target.value.key
  {
    if target.Some? then Some(target.value.key) else None
  }

  type Byte = x: int | 0 <= x < 256
  /** One fragment of recorded audio, as delivered by the recorder. */
  type Chunk = seq<Byte>

  const TextType: string := "text"
  const VoiceType: string := "voice"

  /** The `file_data` object of a voice message: the upload's url, name and size. */
  datatype FileData = FileData(url: string, name: string, size: int)

  /** The JSON form of a stored message (timestamps as instants). */
  datatype MessageDict = MessageDict(
    id: int,
    conversationId: ConvId,
    senderId: UserId,
    senderUsername: string,
    senderAvatar: string,
    content: string,
    messageType: string,
    fileUrl: Option<string>,
    fileName: Option<string>,
    fileSize: Option<int>,
    createdAt: int,
    editedAt: Option<int>,
    isDeleted: bool)

  /** The payload of a `user_typing` event; its id is the value the typing user's client sent. */
  datatype TypingNotice = TypingNotice(userId: UserId, username: string, conversationId: JsId, isTyping: bool)

  /** An event the client emits on its socket. */
  datatype Emit =
    | JoinConversation(conversationId: JsId)
    | LeaveConversation(conversationId: JsId)
    | SendMessage(target: Option<JsId>, content: string, messageType: string, fileData: Option<FileData>)
    | Typing(conversationId: JsId, isTyping: bool)
}
