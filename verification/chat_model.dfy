/** The chat message record of `models/Chat.js`: one message of the thread
    attached to a concern, with its read state. */
module ChatModel {
  import opened Domain
  import opened Text

  const MessageMax: nat := 1000

  /** A stored message; `readAt` is `None` while the message is unread. */
  datatype ChatMessage = ChatMessage(
    id: MessageId,
    concern: ConcernId,
    sender: UserId,
    message: string,
    attachments: seq<Attachment>,
    isRead: bool,
    readAt: Option<nat>,
    createdAt: nat)

  /** What holds of every stored message: the text is required, trimmed and at
      most 1000 characters, and a read time is recorded exactly when it is read. */
  predicate WellFormedMessage(m: ChatMessage) {
    && m.message != []
    && |m.message| <= MessageMax
    && IsTrimmed(m.message)
    && (m.isRead <==> m.readAt.Some?)
  }

  /** `Chat.create`: the text is trimmed, then must be non-empty and at most 1000
      characters; the new message is unread with no read time and is stamped
      with the creation time. */
  function CreateMessage(id: MessageId, concern: ConcernId, sender: UserId, text: string,
                         attachments: seq<Attachment>, now: nat): (r: Result<ChatMessage>)
    ensures r.Failure? ==> r.code == Invalid
    ensures r.Success? <==> !AllSpace(text) && |Trim(text)| <= MessageMax
    ensures r.Success? ==>
      && WellFormedMessage(r.value)
      && r.value.id == id
      && r.value.concern == concern
      && r.value.sender == sender
      && r.value.attachments == attachments
      && !r.value.isRead && r.value.readAt.None?
      && r.value.createdAt == now
      && r.value.message == Trim(text)
  {
    var body := Trim(text);
    if body == [] || |body| > MessageMax then Failure(Invalid)
    else Success(ChatMessage(id, concern, sender, body, attachments, false, None, now))
  }
}
