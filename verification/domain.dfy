/**
 The records that travel between the authority, the outbox and the clients.

 Identifiers are opaque in the source (cuids, uuids, emoji strings); only equality
 matters to the protocol, so they are natural numbers here.
 */
module Domain {
  type UserId = nat
  type ConversationId = nat
  type MessageId = nat
  type ClientMessageId = nat
  type Emoji = nat

  datatype Option<+T> = None | Some(value: T)

  datatype SenderType = UserSender | BotSender

  datatype MessageType = Text | Image | Video | File | Voice | System

  /** One row of the Message table. `edited` and `deleted` stand for non-null editedAt and deletedAt. */
  datatype Message = Message(
    id: MessageId,
    clientMessageId: ClientMessageId,
    conversationId: ConversationId,
    senderId: UserId,
    senderType: SenderType,
    sequence: nat,
    kind: MessageType,
    content: string,
    replyToId: Option<MessageId>,
    createdAt: int,
    edited: bool,
    deleted: bool)

  datatype Reaction = Reaction(emoji: Emoji, userId: UserId)

  /** Canonical events, as the payloads of outbox rows. Receipts are addressed to one recipient's topic. */
  datatype Event =
    | ConversationCreated(conversationId: ConversationId, members: set<UserId>)
    | ConversationDeleted(conversationId: ConversationId, members: set<UserId>)
    | MessageCreated(message: Message)
    | MessageEdited(conversationId: ConversationId, messageId: MessageId, content: string)
    | MessageDeleted(conversationId: ConversationId, messageId: MessageId)
    | ReactionAdded(conversationId: ConversationId, messageId: MessageId, reaction: Reaction)
    | ReactionRemoved(conversationId: ConversationId, messageId: MessageId, reaction: Reaction)
    | ReceiptRead(conversationId: ConversationId, userId: UserId, lastReadSequence: nat, recipient: UserId)
    | ReceiptDelivered(conversationId: ConversationId, userId: UserId, lastDeliveredSequence: nat, recipient: UserId)

  function Max(a: int, b: int): int {
    if a < b then b else a
  }

  function Min(a: int, b: int): int {
    if a < b then a else b
  }

  lemma {:induction false} SubsetSize<T>(s: set<T>, t: set<T>)
    requires s <= t
    ensures |s| <= |t|
  {
    assert t == s + (t - s);
  }
}
