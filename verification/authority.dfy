/**
 The chat worker as the authority over the database: what each command handler
 reads before its transaction, what the transaction writes, and how its result is
 settled towards the broker. A handler is split in two, the reads it makes before its
 transaction and the transaction, so other commands can commit in between; the awaited reads
 of one handler are taken together.
 */
module Authority {
  import opened Domain

  datatype Role = Admin | Ordinary

  /** ConversationMember row. */
  datatype Member = Member(role: Role, lastRead: nat, lastDelivered: nat)

  /** Conversation row together with its member rows. */
  datatype Conversation = Conversation(lastSequence: nat, deleted: bool, members: map<UserId, Member>)

  /** Primary key of a MessageReaction row; the map value is its conversationId column. */
  datatype ReactionKey = ReactionKey(messageId: MessageId, reaction: Reaction)

  datatype Db = Db(
    conversations: map<ConversationId, Conversation>,
    messages: map<MessageId, Message>,
    reactions: map<ReactionKey, ConversationId>,
    bots: map<UserId, bool>,
    outbox: seq<Event>)

  datatype SendData = SendData(
    conversationId: ConversationId,
    clientMessageId: ClientMessageId,
    kind: MessageType,
    content: string,
    replyToId: Option<MessageId>)

  /** Parsed commands. `actor` is the envelope's actor.userId, which may be missing. */
  datatype Command =
    | Send(actor: Option<UserId>, data: SendData)
    | BotSend(botId: UserId, data: SendData)
    | Edit(actor: Option<UserId>, conversationId: ConversationId, messageId: MessageId, content: string)
    | Delete(actor: Option<UserId>, conversationId: ConversationId, messageId: MessageId)
    | AddReaction(actor: Option<UserId>, conversationId: ConversationId, messageId: MessageId, emoji: Emoji)
    | RemoveReaction(actor: Option<UserId>, conversationId: ConversationId, messageId: MessageId, emoji: Emoji)
    | MarkRead(actor: Option<UserId>, conversationId: ConversationId, sequence: nat)
    | MarkDelivered(actor: Option<UserId>, conversationId: ConversationId, sequence: nat)

  // ---------- Reads made before the transaction ----------

  /** Proceed carries the clamped sequence of a receipt (0 for other commands). */
  datatype Verdict = Proceed(accepted: nat) | Refuse | Ignore

  predicate IsMember(db: Db, c: ConversationId, u: UserId) {
    c in db.conversations && u in db.conversations[c].members
  }

  predicate InConversation(db: Db, id: MessageId, c: ConversationId) {
    id in db.messages && db.messages[id].conversationId == c
  }

  predicate ReplyTargetOk(db: Db, data: SendData) {
    data.replyToId.Some? ==> InConversation(db, data.replyToId.value, data.conversationId)
  }

  function CheckSend(db: Db, actor: Option<UserId>, data: SendData): Verdict {
    if actor.None? then Refuse
    else if !IsMember(db, data.conversationId, actor.value) then Refuse
    else if db.conversations[data.conversationId].deleted then Refuse
    else if !ReplyTargetOk(db, data) then Refuse
    else Proceed(0)
  }

  /** The bot path never looks at the tombstone. */
  function CheckBotSend(db: Db, botId: UserId, data: SendData): Verdict {
    if botId !in db.bots || !db.bots[botId] then Ignore
    else if !IsMember(db, data.conversationId, botId) then Ignore
    else if !ReplyTargetOk(db, data) then Ignore
    else Proceed(0)
  }

  function CheckEdit(db: Db, actor: Option<UserId>, c: ConversationId, id: MessageId): Verdict {
    if actor.None? || !InConversation(db, id, c) then Ignore
    else
      var m := db.messages[id];
      if m.senderId != actor.value || m.senderType != UserSender || m.deleted then Ignore else Proceed(0)
  }

  function CheckDelete(db: Db, actor: Option<UserId>, c: ConversationId, id: MessageId): Verdict {
    if actor.None? || !InConversation(db, id, c) then Ignore
    else
      var m := db.messages[id];
      var isAuthor := m.senderId == actor.value && m.senderType == UserSender;
      var isAdmin := IsMember(db, c, actor.value) && db.conversations[c].members[actor.value].role == Admin;
      if (!isAuthor && !isAdmin) || m.deleted then Ignore else Proceed(0)
  }

  function CheckAddReaction(db: Db, actor: Option<UserId>, c: ConversationId, id: MessageId): Verdict {
    if actor.None? || !InConversation(db, id, c) || db.messages[id].deleted then Ignore
    else if !IsMember(db, c, actor.value) then Ignore
    else Proceed(0)
  }

  function CheckRemoveReaction(db: Db, actor: Option<UserId>, c: ConversationId): Verdict {
    if actor.None? || !IsMember(db, c, actor.value) then Ignore else Proceed(0)
  }

  /** First read of the receipt transaction: clamp to lastSequence, drop what does not advance. */
  function CheckReceipt(db: Db, actor: Option<UserId>, c: ConversationId, sequence: nat, read: bool): Verdict {
    if actor.None? || !IsMember(db, c, actor.value) then Ignore
    else
      var accepted: nat := Min(sequence, db.conversations[c].lastSequence);
      var m := db.conversations[c].members[actor.value];
      if accepted <= (if read then m.lastRead else m.lastDelivered) then Ignore else Proceed(accepted)
  }

  function Check(db: Db, cmd: Command): Verdict {
    match cmd
    case Send(actor, data) => CheckSend(db, actor, data)
    case BotSend(botId, data) => CheckBotSend(db, botId, data)
    case Edit(actor, c, id, _) => CheckEdit(db, actor, c, id)
    case Delete(actor, c, id) => CheckDelete(db, actor, c, id)
    case AddReaction(actor, c, id, _) => CheckAddReaction(db, actor, c, id)
    case RemoveReaction(actor, c, _, _) => CheckRemoveReaction(db, actor, c)
    case MarkRead(actor, c, s) => CheckReceipt(db, actor, c, s, true)
    case MarkDelivered(actor, c, s) => CheckReceipt(db, actor, c, s, false)
  }

  // ---------- Transactions ----------

  /** A transaction commits a new database, or throws and leaves the old one. */
  datatype TxResult = Committed(db: Db) | UniqueViolation | RowMissing

  /** Values the database picks: the new primary key, its timestamp, the order of a member query. */
  datatype Choice = Choice(newId: MessageId, now: int, order: seq<UserId>)

  predicate ClientIdTaken(db: Db, cmid: ClientMessageId) {
    exists id :: id in db.messages && db.messages[id].clientMessageId == cmid
  }

  predicate SlotTaken(db: Db, c: ConversationId, sequence: nat) {
    exists id :: id in db.messages && db.messages[id].conversationId == c && db.messages[id].sequence == sequence
  }

  function NewMessage(sender: UserId, senderType: SenderType, data: SendData, sequence: nat, pick: Choice): Message {
    Message(pick.newId, data.clientMessageId, data.conversationId, sender, senderType, sequence,
            data.kind, data.content, data.replyToId, pick.now, false, false)
  }

  /** Bump lastSequence, insert the message, insert its message.created row: all or nothing. */
  function TxSend(db: Db, sender: UserId, senderType: SenderType, data: SendData, pick: Choice): TxResult {
    var c := data.conversationId;
    if c !in db.conversations then RowMissing
    else
      var sequence := db.conversations[c].lastSequence + 1;
      if pick.newId in db.messages || ClientIdTaken(db, data.clientMessageId) || SlotTaken(db, c, sequence)
      then UniqueViolation
      else
        var m := NewMessage(sender, senderType, data, sequence, pick);
        Committed(db.(
          conversations := db.conversations[c := db.conversations[c].(lastSequence := sequence)],
          messages := db.messages[m.id := m],
          outbox := db.outbox + [MessageCreated(m)]))
  }

  function TxEdit(db: Db, c: ConversationId, id: MessageId, content: string): TxResult {
    if id !in db.messages then RowMissing
    else Committed(db.(
      messages := db.messages[id := db.messages[id].(content := content, edited := true)],
      outbox := db.outbox + [MessageEdited(c, id, content)]))
  }

  function TxDelete(db: Db, c: ConversationId, id: MessageId): TxResult {
    if id !in db.messages then RowMissing
    else Committed(db.(
      messages := db.messages[id := db.messages[id].(content := "", deleted := true)],
      outbox := db.outbox + [MessageDeleted(c, id)]))
  }

  function TxAddReaction(db: Db, user: UserId, c: ConversationId, id: MessageId, emoji: Emoji): TxResult {
    var key := ReactionKey(id, Reaction(emoji, user));
    if id !in db.messages then RowMissing
    else if key in db.reactions then UniqueViolation
    else Committed(db.(
      reactions := db.reactions[key := c],
      outbox := db.outbox + [ReactionAdded(c, id, key.reaction)]))
  }

  function TxRemoveReaction(db: Db, user: UserId, c: ConversationId, id: MessageId, emoji: Emoji): TxResult {
    var key := ReactionKey(id, Reaction(emoji, user));
    if key !in db.reactions || db.reactions[key] != c then Committed(db)
    else Committed(db.(
      reactions := db.reactions - {key},
      outbox := db.outbox + [ReactionRemoved(c, id, key.reaction)]))
  }

  function SetMember(db: Db, c: ConversationId, u: UserId, m: Member): map<ConversationId, Conversation>
    requires c in db.conversations
  {
    db.conversations[c := db.conversations[c].(members := db.conversations[c].members[u := m])]
  }

  function Fanout(order: seq<UserId>, c: ConversationId, u: UserId, sequence: nat, read: bool): seq<Event> {
    seq(|order|, i requires 0 <= i < |order| =>
      if read then ReceiptRead(c, u, sequence, order[i]) else ReceiptDelivered(c, u, sequence, order[i]))
  }

  /** Conditional update of the watermark, then one outbox row per recipient. */
  function TxReceipt(db: Db, u: UserId, c: ConversationId, accepted: nat, order: seq<UserId>, read: bool): TxResult {
    if !IsMember(db, c, u) then Committed(db)
    else
      var m := db.conversations[c].members[u];
      if (if read then m.lastRead else m.lastDelivered) >= accepted then Committed(db)
      else
        var advanced := if read then m.(lastRead := accepted) else m.(lastDelivered := accepted);
        Committed(db.(
          conversations := SetMember(db, c, u, advanced),
          outbox := db.outbox + Fanout(order, c, u, accepted, read)))
  }

  function Transact(db: Db, cmd: Command, accepted: nat, pick: Choice): TxResult {
    match cmd
    case Send(Some(u), data) => TxSend(db, u, UserSender, data, pick)
    case BotSend(b, data) => TxSend(db, b, BotSender, data, pick)
    case Edit(Some(_), c, id, content) => TxEdit(db, c, id, content)
    case Delete(Some(_), c, id) => TxDelete(db, c, id)
    case AddReaction(Some(u), c, id, emoji) => TxAddReaction(db, u, c, id, emoji)
    case RemoveReaction(Some(u), c, id, emoji) => TxRemoveReaction(db, u, c, id, emoji)
    case MarkRead(Some(u), c, _) => TxReceipt(db, u, c, accepted, pick.order, true)
    case MarkDelivered(Some(u), c, _) => TxReceipt(db, u, c, accepted, pick.order, false)
    case _ => RowMissing
  }

  // ---------- Settlement towards the broker ----------

  /** Resolving consume() sends the PUBACK; throwing leaves the command to be redelivered. */
  datatype Outcome = Accepted | Refused | Dropped | Redeliver

  predicate OwnedHere(db: Db, data: SendData) {
    exists id :: id in db.messages && db.messages[id].clientMessageId == data.clientMessageId
                 && db.messages[id].conversationId == data.conversationId
  }

  function Settle(db: Db, cmd: Command, r: TxResult): Outcome {
    match r
    case Committed(_) => Accepted
    case UniqueViolation =>
      if cmd.Send? then (if OwnedHere(db, cmd.data) then Accepted else Redeliver)
      else Accepted
    case RowMissing => if cmd.Send? then Refused else Redeliver
  }
}
