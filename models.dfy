/**
 * The database records of the chat server and the display values derived
 * from them: the other participant of a direct conversation, a conversation's
 * display name and avatar, and a message's JSON form.
 */
module Models {
  import opened Wrappers
  import opened Wire

  datatype User = User(id: UserId, username: string, email: string, avatarUrl: string, isOnline: bool)

  datatype ConversationRow = ConversationRow(
    id: ConvId, name: Option<string>, isGroup: bool, createdAt: int, updatedAt: int)

  /** A row of `conversation_participants`, identified by its (conversation, user) pair. */
  datatype ParticipantRow = ParticipantRow(conversationId: ConvId, userId: UserId)

  datatype MessageRow = MessageRow(
    id: int,
    conversationId: ConvId,
    senderId: UserId,
    content: string,
    messageType: string,
    fileUrl: Option<string>,
    fileName: Option<string>,
    fileSize: Option<int>,
    createdAt: int,
    editedAt: Option<int>,
    isDeleted: bool)

  /** The JSON form of a conversation as seen by one user. */
  datatype ConversationDict = ConversationDict(
    id: ConvId, name: string, isGroup: bool, avatarUrl: string, updatedAt: int, participantCount: nat)

  const GroupChatName := "Group Chat"
  const UnknownName := "Unknown"

  /** The unique constraint of `conversation_participants`: no (conversation, user) pair twice. */
  predicate UniquePairs(rows: seq<ParticipantRow>) {
    forall i, j :: 0 <= i < j < |rows| ==> rows[i] != rows[j]
  }

  /**
   * Linear search for the first participant whose id differs from the
   * viewer's. With no viewer (`None`) every participant differs.
   */
  function FirstOther(participants: seq<User>, viewer: Option<UserId>): (r: Option<User>)
    ensures r.None? <==> forall i :: 0 <= i < |participants| ==> Some(participants[i].id) == viewer
    ensures r.Some? ==> exists k :: (0 <= k < |participants| && participants[k] == r.value
      && Some(participants[k].id) != viewer
      && forall j :: 0 <= j < k ==> Some(participants[j].id) == viewer)
  {
    if participants == [] then None
    else if Some(participants[0].id) != viewer then Some(participants[0])
    else
      var rest := FirstOther(participants[1..], viewer);
      assert rest.Some? ==> exists k :: (1 <= k < |participants| && participants[k] == rest.value
        && Some(participants[k].id) != viewer
        && forall j :: 0 <= j < k ==> Some(participants[j].id) == viewer)
      by {
        if rest.Some? {
          var k :| 0 <= k < |participants[1..]| && participants[1..][k] == rest.value
            && Some(participants[1..][k].id) != viewer
            && forall j :: 0 <= j < k ==> Some(participants[1..][j].id) == viewer;
          assert participants[k + 1] == rest.value;
        }
      }
      rest
  }

  /** `Conversation.get_other_participant`: none for a group, else the first non-viewer. */
  function GetOtherParticipant(conv: ConversationRow, participants: seq<User>, viewer: Option<UserId>): (r: Option<User>)
    ensures conv.isGroup ==> r.None?
    ensures !conv.isGroup ==> r == FirstOther(participants, viewer)
  {
    if conv.isGroup then None else FirstOther(participants, viewer)
  }

  /** `Conversation.to_dict`, with `participants` the users joined to the conversation. */
  function ConversationToDict(conv: ConversationRow, participants: seq<User>, viewer: Option<UserId>): (r: ConversationDict)
    ensures r.id == conv.id && r.isGroup == conv.isGroup && r.updatedAt == conv.updatedAt
    ensures r.participantCount == |participants|
    ensures conv.isGroup ==> r.avatarUrl == ""
    ensures conv.isGroup && conv.name.Some? && conv.name.value != "" ==> r.name == conv.name.value
    ensures conv.isGroup && (conv.name.None? || conv.name.value == "") ==> r.name == GroupChatName
    ensures !conv.isGroup ==> match GetOtherParticipant(conv, participants, viewer)
      case Some(u) => r.name == u.username && r.avatarUrl == u.avatarUrl
      case None => r.name == UnknownName && r.avatarUrl == ""
  {
    var (name, avatar) :=
      if conv.isGroup then
        (if conv.name.Some? && conv.name.value != "" then conv.name.value else GroupChatName, "")
      else
        match GetOtherParticipant(conv, participants, viewer)
        case Some(u) => (u.username, u.avatarUrl)
        case None => (UnknownName, "");
    ConversationDict(conv.id, name, conv.isGroup, avatar, conv.updatedAt, |participants|)
  }

  /**
   * A direct conversation between the viewer and one other user is titled with
   * that user's name and avatar, whichever order the participants come in.
   */
  lemma DirectConversationShowsOtherUser(conv: ConversationRow, viewer: User, other: User, participants: seq<User>)
    requires !conv.isGroup && viewer.id != other.id
    requires participants == [viewer, other] || participants == [other, viewer]
    ensures ConversationToDict(conv, participants, Some(viewer.id)).name == other.username
    ensures ConversationToDict(conv, participants, Some(viewer.id)).avatarUrl == other.avatarUrl
  {
    if participants == [viewer, other] {
      assert FirstOther(participants[1..], Some(viewer.id)) == Some(other);
    }
  }

  /** `Message.to_dict`; `sender` is the user the row's `sender_id` refers to. */
  function MessageToDict(m: MessageRow, sender: User): (r: MessageDict)
    requires sender.id == m.senderId
    ensures r.editedAt == m.editedAt
    ensures r.id == m.id && r.conversationId == m.conversationId && r.senderId == m.senderId
    ensures r.senderUsername == sender.username && r.senderAvatar == sender.avatarUrl
    ensures r.content == m.content && r.messageType == m.messageType && r.isDeleted == m.isDeleted
    ensures r.fileUrl == m.fileUrl && r.fileName == m.fileName && r.fileSize == m.fileSize
    ensures r.createdAt == m.createdAt
  {
    MessageDict(m.id, m.conversationId, m.senderId, sender.username, sender.avatarUrl,
      m.content, m.messageType, m.fileUrl, m.fileName, m.fileSize, m.createdAt,
      m.editedAt, m.isDeleted)
  }
}
