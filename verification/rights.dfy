/**
 Who may do what, and that nobody gets more: over every run, each announced event and each
 stored fact goes back to a command that was submitted by someone entitled to it. Entitlement
 is stated about the tables alone, apart from the checks the handlers make.
 */
module Rights {
  import opened Domain
  import opened Authority
  import D = Delivery

  // ---------- What the tables say ----------

  predicate Belongs(db: Db, u: UserId, c: ConversationId) {
    c in db.conversations && u in db.conversations[c].members
  }

  predicate Holds(db: Db, c: ConversationId, id: MessageId) {
    id in db.messages && db.messages[id].conversationId == c
  }

  predicate Wrote(m: Message, u: UserId) {
    m.senderId == u && m.senderType == UserSender
  }

  predicate Presides(db: Db, u: UserId, c: ConversationId) {
    Belongs(db, u, c) && db.conversations[c].members[u].role == Admin
  }

  /** A reply answers a message of its own conversation. */
  predicate Answers(db: Db, c: ConversationId, replyToId: Option<MessageId>) {
    replyToId.None? || Holds(db, c, replyToId.value)
  }

  predicate Serves(db: Db, bot: UserId) {
    bot in db.bots && db.bots[bot]
  }

  /** The standing a command needs, once and for all: no later step takes it away. */
  predicate Entitled(db: Db, cmd: Command) {
    match cmd
    case Send(actor, data) =>
      && actor.Some? && Belongs(db, actor.value, data.conversationId)
      && Answers(db, data.conversationId, data.replyToId)
    case BotSend(bot, data) =>
      && Serves(db, bot) && Belongs(db, bot, data.conversationId)
      && Answers(db, data.conversationId, data.replyToId)
    case Edit(actor, c, id, _) => actor.Some? && Holds(db, c, id) && Wrote(db.messages[id], actor.value)
    case Delete(actor, c, id) =>
      actor.Some? && Holds(db, c, id) && (Wrote(db.messages[id], actor.value) || Presides(db, actor.value, c))
    case AddReaction(actor, c, id, _) => actor.Some? && Holds(db, c, id) && Belongs(db, actor.value, c)
    case RemoveReaction(actor, c, _, _) => actor.Some? && Belongs(db, actor.value, c)
    case MarkRead(actor, c, _) => actor.Some? && Belongs(db, actor.value, c)
    case MarkDelivered(actor, c, _) => actor.Some? && Belongs(db, actor.value, c)
  }

  /** Entitled, and neither the conversation of a user's send nor the message is deleted. */
  predicate Permitted(db: Db, cmd: Command) {
    && Entitled(db, cmd)
    && match cmd
       case Send(_, data) => !db.conversations[data.conversationId].deleted
       case Edit(_, _, id, _) => !db.messages[id].deleted
       case Delete(_, _, id) => !db.messages[id].deleted
       case AddReaction(_, _, id, _) => !db.messages[id].deleted
       case _ => true
  }

  /** The command asks for what the event announces; a receipt may be granted less. */
  predicate Asks(cmd: Command, e: Event) {
    match e
    case MessageCreated(m) =>
      var data := SendData(m.conversationId, m.clientMessageId, m.kind, m.content, m.replyToId);
      cmd == (if m.senderType == UserSender then Send(Some(m.senderId), data) else BotSend(m.senderId, data))
    case MessageEdited(c, id, content) => cmd.Edit? && cmd == Edit(cmd.actor, c, id, content)
    case MessageDeleted(c, id) => cmd.Delete? && cmd == Delete(cmd.actor, c, id)
    case ReactionAdded(c, id, r) => cmd == AddReaction(Some(r.userId), c, id, r.emoji)
    case ReactionRemoved(c, id, r) => cmd == RemoveReaction(Some(r.userId), c, id, r.emoji)
    case ReceiptRead(c, u, s, _) => cmd.MarkRead? && cmd == MarkRead(Some(u), c, cmd.sequence) && s <= cmd.sequence
    case ReceiptDelivered(c, u, s, _) =>
      cmd.MarkDelivered? && cmd == MarkDelivered(Some(u), c, cmd.sequence) && s <= cmd.sequence
    case _ => false
  }

  /** Someone entitled submitted a command for it. */
  ghost predicate Asked(db: Db, submitted: set<Command>, e: Event) {
    exists cmd :: cmd in submitted && Entitled(db, cmd) && Asks(cmd, e)
  }

  // ---------- What is warranted ----------

  ghost predicate LogAsked(db: Db, submitted: set<Command>) {
    forall i | 0 <= i < |db.outbox| && !db.outbox[i].ConversationCreated? && !db.outbox[i].ConversationDeleted? ::
      Asked(db, submitted, db.outbox[i])
  }

  /** A text is what its send or the last edit asked for, or was cleared by an asked-for deletion. */
  ghost predicate TextsAsked(db: Db, submitted: set<Command>) {
    forall id | id in db.messages ::
      var m := db.messages[id];
      && (m.deleted ==> Asked(db, submitted, MessageDeleted(m.conversationId, id)))
      && ((m.deleted && m.content == "")
          || Asked(db, submitted,
                   if m.edited then MessageEdited(m.conversationId, id, m.content) else MessageCreated(m)))
  }

  ghost predicate ReactionsAsked(db: Db, submitted: set<Command>) {
    forall k | k in db.reactions :: Asked(db, submitted, ReactionAdded(db.reactions[k], k.messageId, k.reaction))
  }

  ghost predicate MarksAsked(db: Db, submitted: set<Command>) {
    forall c, u | Belongs(db, u, c) ::
      var m := db.conversations[c].members[u];
      && (m.lastRead > 0 ==> Asked(db, submitted, ReceiptRead(c, u, m.lastRead, u)))
      && (m.lastDelivered > 0 ==> Asked(db, submitted, ReceiptDelivered(c, u, m.lastDelivered, u)))
  }

  ghost predicate Warranted(db: Db, submitted: set<Command>) {
    && LogAsked(db, submitted) && TextsAsked(db, submitted)
    && ReactionsAsked(db, submitted) && MarksAsked(db, submitted)
  }

  /** A check that let a command through leaves it entitled and a receipt clamped. */
  ghost predicate Vetted(db: Db, task: D.Task) {
    task.stage.Checked? ==>
      && Entitled(db, task.cmd)
      && (task.cmd.MarkRead? || task.cmd.MarkDelivered? ==> task.stage.accepted <= task.cmd.sequence)
  }

  ghost predicate Inv(w: D.World) {
    Warranted(w.db, w.submitted)
    && forall t | t in w.tasks :: w.tasks[t].cmd in w.submitted && Vetted(w.db, w.tasks[t])
  }

  // ---------- Entitlement lasts ----------

  /** Members stay with their roles, messages with their authors, bots as they are. */
  ghost predicate Lasts(a: Db, b: Db) {
    && b.bots == a.bots
    && (forall id :: id in a.messages ==> id in b.messages && D.SameIdentity(a.messages[id], b.messages[id]))
    && (forall c, u :: Belongs(a, u, c) ==>
          Belongs(b, u, c) && b.conversations[c].members[u].role == a.conversations[c].members[u].role)
    && (forall c, u :: c in a.conversations && Belongs(b, u, c) ==> Belongs(a, u, c))
  }

  lemma EntitledLasts(a: Db, b: Db, cmd: Command)
    requires Lasts(a, b) && Entitled(a, cmd)
    ensures Entitled(b, cmd)
  {
  }

  lemma {:induction false} AskedLasts(a: Db, b: Db, submitted: set<Command>, more: set<Command>, e: Event)
    requires Lasts(a, b) && submitted <= more && Asked(a, submitted, e)
    ensures Asked(b, more, e)
  {
    var cmd :| cmd in submitted && Entitled(a, cmd) && Asks(cmd, e);
    EntitledLasts(a, b, cmd);
  }

  lemma {:induction false} TransactLasts(a: Db, cmd: Command, accepted: nat, pick: Choice, b: Db)
    requires pick.newId !in a.messages && Transact(a, cmd, accepted, pick) == Committed(b)
    ensures Lasts(a, b)
  {
    match cmd
    case MarkRead(u, c, _) => ReceiptLasts(a, u.value, c, accepted, pick.order, true, b);
    case MarkDelivered(u, c, _) => ReceiptLasts(a, u.value, c, accepted, pick.order, false, b);
    case _ =>
      assert forall c :: c in a.conversations ==>
        c in b.conversations && b.conversations[c].members == a.conversations[c].members;
  }

  lemma ReceiptLasts(a: Db, u: UserId, c: ConversationId, accepted: nat, order: seq<UserId>, read: bool, b: Db)
    requires TxReceipt(a, u, c, accepted, order, read) == Committed(b)
    ensures Lasts(a, b)
  {
  }

  lemma {:induction false} ApiLasts(a: Db, s: D.Step, b: Db)
    requires s.CreateConversation? || s.Tombstone?
    requires b == if s.CreateConversation? then D.CreateIn(a, s.c, s.members) else D.TombstoneIn(a, s.c)
    ensures Lasts(a, b)
  {
  }

  // ---------- Every step keeps the warrant ----------

  /** A step of the database that adds the event `e`, if any, to the log. */
  ghost predicate LogsOnly(a: Db, b: Db, submitted: set<Command>) {
    && a.outbox <= b.outbox
    && forall i | |a.outbox| <= i < |b.outbox| ::
         b.outbox[i].ConversationCreated? || b.outbox[i].ConversationDeleted? || Asked(b, submitted, b.outbox[i])
  }

  lemma {:induction false} LogStays(a: Db, b: Db, submitted: set<Command>)
    requires LogAsked(a, submitted) && Lasts(a, b) && LogsOnly(a, b, submitted)
    ensures LogAsked(b, submitted)
  {
    forall i | 0 <= i < |b.outbox| && !b.outbox[i].ConversationCreated? && !b.outbox[i].ConversationDeleted?
      ensures Asked(b, submitted, b.outbox[i])
    {
      if i < |a.outbox| {
        assert b.outbox[i] == a.outbox[i];
        AskedLasts(a, b, submitted, submitted, a.outbox[i]);
      }
    }
  }

  /** Rows as they were are as warranted as they were. */
  lemma {:induction false} TextsStay(a: Db, b: Db, submitted: set<Command>, touched: set<MessageId>)
    requires TextsAsked(a, submitted) && Lasts(a, b)
    requires forall id :: id in b.messages && id !in touched ==> id in a.messages && b.messages[id] == a.messages[id]
    requires forall id | id in touched && id in b.messages ::
      var m := b.messages[id];
      && (m.deleted ==> Asked(b, submitted, MessageDeleted(m.conversationId, id)))
      && ((m.deleted && m.content == "")
          || Asked(b, submitted,
                   if m.edited then MessageEdited(m.conversationId, id, m.content) else MessageCreated(m)))
    ensures TextsAsked(b, submitted)
  {
    forall id | id in b.messages && id !in touched
      ensures var m := b.messages[id];
        && (m.deleted ==> Asked(b, submitted, MessageDeleted(m.conversationId, id)))
        && ((m.deleted && m.content == "")
            || Asked(b, submitted,
                     if m.edited then MessageEdited(m.conversationId, id, m.content) else MessageCreated(m)))
    {
      var m := a.messages[id];
      if m.deleted { AskedLasts(a, b, submitted, submitted, MessageDeleted(m.conversationId, id)); }
      if !(m.deleted && m.content == "") {
        AskedLasts(a, b, submitted, submitted,
                   if m.edited then MessageEdited(m.conversationId, id, m.content) else MessageCreated(m));
      }
    }
  }

  lemma {:induction false} ReactionsStay(a: Db, b: Db, submitted: set<Command>)
    requires ReactionsAsked(a, submitted) && Lasts(a, b)
    requires forall k :: k in b.reactions ==>
      (k in a.reactions && b.reactions[k] == a.reactions[k])
      || Asked(b, submitted, ReactionAdded(b.reactions[k], k.messageId, k.reaction))
    ensures ReactionsAsked(b, submitted)
  {
    forall k | k in b.reactions
      ensures Asked(b, submitted, ReactionAdded(b.reactions[k], k.messageId, k.reaction))
    {
      if k in a.reactions && b.reactions[k] == a.reactions[k] {
        AskedLasts(a, b, submitted, submitted, ReactionAdded(a.reactions[k], k.messageId, k.reaction));
      }
    }
  }

  predicate Marks(db: Db, c: ConversationId, u: UserId, read: bool, s: nat) {
    && Belongs(db, u, c)
    && s == if read then db.conversations[c].members[u].lastRead else db.conversations[c].members[u].lastDelivered
  }

  function Receipt(c: ConversationId, u: UserId, s: nat, read: bool): Event {
    if read then ReceiptRead(c, u, s, u) else ReceiptDelivered(c, u, s, u)
  }

  /** Every watermark is zero, as before, or asked for. */
  lemma {:induction false} MarksStay(a: Db, b: Db, submitted: set<Command>)
    requires MarksAsked(a, submitted) && Lasts(a, b)
    requires forall c, u, read, s :: Marks(b, c, u, read, s) && s > 0 ==>
      Marks(a, c, u, read, s) || Asked(b, submitted, Receipt(c, u, s, read))
    ensures MarksAsked(b, submitted)
  {
    forall c, u, read, s | Marks(b, c, u, read, s) && s > 0 ensures Asked(b, submitted, Receipt(c, u, s, read)) {
      if Marks(a, c, u, read, s) { AskedLasts(a, b, submitted, submitted, Receipt(c, u, s, read)); }
    }
    forall c, u | Belongs(b, u, c)
      ensures var m := b.conversations[c].members[u];
        && (m.lastRead > 0 ==> Asked(b, submitted, ReceiptRead(c, u, m.lastRead, u)))
        && (m.lastDelivered > 0 ==> Asked(b, submitted, ReceiptDelivered(c, u, m.lastDelivered, u)))
    {
      var m := b.conversations[c].members[u];
      assert Marks(b, c, u, true, m.lastRead) && Marks(b, c, u, false, m.lastDelivered);
    }
  }

  // ---------- One transaction ----------

  /** The command is still entitled after its own commit, so what it asked for is asked for. */
  lemma {:induction false} AskedNow(a: Db, b: Db, submitted: set<Command>, cmd: Command, e: Event)
    requires Lasts(a, b) && cmd in submitted && Entitled(a, cmd) && Asks(cmd, e)
    ensures Asked(b, submitted, e)
  {
    EntitledLasts(a, b, cmd);
  }

  lemma {:induction false} SendWarranted(a: Db, cmd: Command, u: UserId, t: SenderType, pick: Choice, b: Db,
      submitted: set<Command>)
    requires Warranted(a, submitted) && cmd in submitted && Entitled(a, cmd) && Lasts(a, b)
    requires cmd.Send? || cmd.BotSend?
    requires cmd == if t == UserSender then Send(Some(u), cmd.data) else BotSend(u, cmd.data)
    requires TxSend(a, u, t, cmd.data, pick) == Committed(b)
    ensures Warranted(b, submitted)
  {
    var m := b.messages[pick.newId];
    AskedNow(a, b, submitted, cmd, MessageCreated(m));
    LogStays(a, b, submitted);
    TextsStay(a, b, submitted, {pick.newId});
    ReactionsStay(a, b, submitted);
    MarksStay(a, b, submitted);
  }

  lemma {:induction false} RewriteWarranted(a: Db, cmd: Command, pick: Choice, b: Db, submitted: set<Command>)
    requires Warranted(a, submitted) && cmd in submitted && Entitled(a, cmd) && Lasts(a, b)
    requires (cmd.Edit? || cmd.Delete?) && Transact(a, cmd, 0, pick) == Committed(b)
    ensures Warranted(b, submitted)
  {
    var id := cmd.messageId;
    var e := if cmd.Edit? then MessageEdited(cmd.conversationId, id, cmd.content)
             else MessageDeleted(cmd.conversationId, id);
    AskedNow(a, b, submitted, cmd, e);
    if a.messages[id].deleted { AskedLasts(a, b, submitted, submitted, MessageDeleted(cmd.conversationId, id)); }
    LogStays(a, b, submitted);
    TextsStay(a, b, submitted, {id});
    ReactionsStay(a, b, submitted);
    MarksStay(a, b, submitted);
  }

  lemma {:induction false} ReactWarranted(a: Db, cmd: Command, pick: Choice, b: Db, submitted: set<Command>)
    requires Warranted(a, submitted) && cmd in submitted && Entitled(a, cmd) && Lasts(a, b)
    requires (cmd.AddReaction? || cmd.RemoveReaction?) && Transact(a, cmd, 0, pick) == Committed(b)
    ensures Warranted(b, submitted)
  {
    var e := Reacted(cmd);
    AskedNow(a, b, submitted, cmd, e);
    ReactTables(a, cmd, pick, b);
    ReactStep(a, b, submitted, e);
  }

  function Reacted(cmd: Command): Event
    requires (cmd.AddReaction? || cmd.RemoveReaction?) && cmd.actor.Some?
  {
    var r := Reaction(cmd.emoji, cmd.actor.value);
    if cmd.AddReaction? then ReactionAdded(cmd.conversationId, cmd.messageId, r)
    else ReactionRemoved(cmd.conversationId, cmd.messageId, r)
  }

  /** Only the reaction of the event differs, and at most the event is logged. */
  predicate Reacts(a: Db, b: Db, e: Event) {
    && b.messages == a.messages && b.conversations == a.conversations
    && (b.outbox == a.outbox || b.outbox == a.outbox + [e])
    && forall k :: k in b.reactions ==>
         (k in a.reactions && b.reactions[k] == a.reactions[k])
         || e == ReactionAdded(b.reactions[k], k.messageId, k.reaction)
  }

  lemma ReactTables(a: Db, cmd: Command, pick: Choice, b: Db)
    requires (cmd.AddReaction? || cmd.RemoveReaction?) && Transact(a, cmd, 0, pick) == Committed(b)
    ensures Reacts(a, b, Reacted(cmd))
  {
  }

  lemma {:induction false} ReactStep(a: Db, b: Db, submitted: set<Command>, e: Event)
    requires Warranted(a, submitted) && Lasts(a, b) && Asked(b, submitted, e) && Reacts(a, b, e)
    ensures Warranted(b, submitted)
  {
    ReactionsWarranted(a, b, submitted);
  }

  lemma {:induction false} ReactionsWarranted(a: Db, b: Db, submitted: set<Command>)
    requires Warranted(a, submitted) && Lasts(a, b) && LogsOnly(a, b, submitted)
    requires b.messages == a.messages && b.conversations == a.conversations
    requires forall k :: k in b.reactions ==>
      (k in a.reactions && b.reactions[k] == a.reactions[k])
      || Asked(b, submitted, ReactionAdded(b.reactions[k], k.messageId, k.reaction))
    ensures Warranted(b, submitted)
  {
    LogStays(a, b, submitted);
    TextsStay(a, b, submitted, {});
    ReactionsStay(a, b, submitted);
    MarksStay(a, b, submitted);
  }

  predicate ReceiptOf(e: Event, c: ConversationId, u: UserId, s: nat, read: bool) {
    if read then e.ReceiptRead? && e == ReceiptRead(c, u, s, e.recipient)
    else e.ReceiptDelivered? && e == ReceiptDelivered(c, u, s, e.recipient)
  }

  lemma ReceiptMarks(a: Db, u: UserId, c: ConversationId, accepted: nat, order: seq<UserId>, read: bool, b: Db)
    requires TxReceipt(a, u, c, accepted, order, read) == Committed(b)
    ensures forall d, v, kind, s :: Marks(b, d, v, kind, s) ==>
      Marks(a, d, v, kind, s) || (d == c && v == u && s == accepted && kind == read)
    ensures a.outbox <= b.outbox && b.messages == a.messages && b.reactions == a.reactions
    ensures forall i | |a.outbox| <= i < |b.outbox| :: ReceiptOf(b.outbox[i], c, u, accepted, read)
  {
  }

  lemma {:induction false} ReceiptLog(a: Db, cmd: Command, accepted: nat, b: Db, read: bool, submitted: set<Command>)
    requires cmd in submitted && Entitled(a, cmd) && Lasts(a, b) && a.outbox <= b.outbox
    requires (if read then cmd.MarkRead? else cmd.MarkDelivered?) && accepted <= cmd.sequence
    requires forall i | |a.outbox| <= i < |b.outbox| ::
      ReceiptOf(b.outbox[i], cmd.conversationId, cmd.actor.value, accepted, read)
    ensures LogsOnly(a, b, submitted)
  {
    forall i | |a.outbox| <= i < |b.outbox| ensures Asked(b, submitted, b.outbox[i]) {
      AskedNow(a, b, submitted, cmd, b.outbox[i]);
    }
  }

  lemma {:induction false} ReceiptWarranted(a: Db, cmd: Command, accepted: nat, pick: Choice, b: Db, read: bool,
      submitted: set<Command>)
    requires Warranted(a, submitted) && cmd in submitted && Entitled(a, cmd) && Lasts(a, b)
    requires (if read then cmd.MarkRead? else cmd.MarkDelivered?) && accepted <= cmd.sequence
    requires Transact(a, cmd, accepted, pick) == Committed(b)
    ensures Warranted(b, submitted)
  {
    var c, u := cmd.conversationId, cmd.actor.value;
    ReceiptMarks(a, u, c, accepted, pick.order, read, b);
    ReceiptLog(a, cmd, accepted, b, read, submitted);
    AskedNow(a, b, submitted, cmd, Receipt(c, u, accepted, read));
    LogStays(a, b, submitted);
    TextsStay(a, b, submitted, {});
    ReactionsStay(a, b, submitted);
    MarksStay(a, b, submitted);
  }

  /** Whatever commits was asked for, however stale the check that let it through. */
  lemma {:induction false} CommitWarranted(a: Db, task: D.Task, pick: Choice, b: Db, submitted: set<Command>)
    requires Warranted(a, submitted) && task.stage.Checked? && Vetted(a, task) && task.cmd in submitted
    requires pick.newId !in a.messages && Transact(a, task.cmd, task.stage.accepted, pick) == Committed(b)
    ensures Warranted(b, submitted) && Lasts(a, b)
  {
    var cmd, accepted := task.cmd, task.stage.accepted;
    TransactLasts(a, cmd, accepted, pick, b);
    match cmd
    case Send(actor, _) => SendWarranted(a, cmd, actor.value, UserSender, pick, b, submitted);
    case BotSend(bot, _) => SendWarranted(a, cmd, bot, BotSender, pick, b, submitted);
    case MarkRead(_, _, _) => ReceiptWarranted(a, cmd, accepted, pick, b, true, submitted);
    case MarkDelivered(_, _, _) => ReceiptWarranted(a, cmd, accepted, pick, b, false, submitted);
    case AddReaction(_, _, _, _) => ReactWarranted(a, cmd, pick, b, submitted);
    case RemoveReaction(_, _, _, _) => ReactWarranted(a, cmd, pick, b, submitted);
    case _ => RewriteWarranted(a, cmd, pick, b, submitted);
  }

  // ---------- Every run ----------

  lemma {:induction false} ApiWarranted(a: Db, s: D.Step, b: Db, submitted: set<Command>)
    requires s.CreateConversation? || s.Tombstone?
    requires b == if s.CreateConversation? then D.CreateIn(a, s.c, s.members) else D.TombstoneIn(a, s.c)
    requires Warranted(a, submitted)
    ensures Warranted(b, submitted) && Lasts(a, b)
  {
    ApiLasts(a, s, b);
    assert b.messages == a.messages && b.reactions == a.reactions;
    LogStays(a, b, submitted);
    TextsStay(a, b, submitted, {});
    ReactionsStay(a, b, submitted);
    forall c, u, read, w | Marks(b, c, u, read, w) && w > 0 ensures Marks(a, c, u, read, w) {
    }
    MarksStay(a, b, submitted);
  }

  /** Submitting more asks for more. */
  lemma {:induction false} SubmitWarranted(a: Db, submitted: set<Command>, more: set<Command>)
    requires Warranted(a, submitted) && submitted <= more
    ensures Warranted(a, more)
  {
    forall e | Asked(a, submitted, e) ensures Asked(a, more, e) { AskedLasts(a, a, submitted, more, e); }
  }

  /** How far a receipt may go: no further than asked, nor past the last message. */
  function Granted(db: Db, c: ConversationId, asked: nat): nat {
    if c in db.conversations && db.conversations[c].lastSequence < asked
    then db.conversations[c].lastSequence else asked
  }

  /** The receipt moves its member's watermark. */
  predicate Forward(db: Db, cmd: Command) {
    match cmd
    case MarkRead(Some(u), c, asked) =>
      Belongs(db, u, c) && db.conversations[c].members[u].lastRead < Granted(db, c, asked)
    case MarkDelivered(Some(u), c, asked) =>
      Belongs(db, u, c) && db.conversations[c].members[u].lastDelivered < Granted(db, c, asked)
    case _ => true
  }

  /**
   The checks let through exactly what is permitted and moves something; a user's send that is
   not permitted is refused, everything else dropped.
   */
  lemma CheckExactly(db: Db, cmd: Command)
    ensures Check(db, cmd).Proceed? <==> Permitted(db, cmd) && Forward(db, cmd)
    ensures Check(db, cmd).Refuse? <==> cmd.Send? && !Permitted(db, cmd)
    ensures Check(db, cmd).Proceed? && (cmd.MarkRead? || cmd.MarkDelivered?) ==>
      Check(db, cmd).accepted == Granted(db, cmd.conversationId, cmd.sequence)
  {
  }

  lemma {:induction false} VettedLasts(a: Db, b: Db, task: D.Task)
    requires Lasts(a, b) && Vetted(a, task)
    ensures Vetted(b, task)
  {
    if task.stage.Checked? { EntitledLasts(a, b, task.cmd); }
  }

  /** The database moved on under the tasks; one of them may have settled. */
  lemma {:induction false} DbStepInv(w: D.World, v: D.World)
    requires Inv(w) && Lasts(w.db, v.db) && Warranted(v.db, v.submitted)
    requires forall t | t in v.tasks ::
      && v.tasks[t].cmd in v.submitted
      && ((t in w.tasks && v.tasks[t] == w.tasks[t]) || !v.tasks[t].stage.Checked?)
    ensures Inv(v)
  {
    forall t | t in v.tasks ensures Vetted(v.db, v.tasks[t]) {
      if v.tasks[t].stage.Checked? { VettedLasts(w.db, v.db, w.tasks[t]); }
    }
  }

  lemma {:induction false} NextInv(w: D.World, s: D.Step)
    requires Inv(w)
    ensures Inv(D.Next(w, s))
  {
    var v := D.Next(w, s);
    match s
    case CreateConversation(_, _) => ApiWarranted(w.db, s, v.db, w.submitted); DbStepInv(w, v);
    case Tombstone(_) => ApiWarranted(w.db, s, v.db, w.submitted); DbStepInv(w, v);
    case RunTransaction(t, pick) =>
      TransactionRan(w, t, pick, v);
      if v != w { RanInv(w, t, pick, v); }
    case _ => TaskStepInv(w, s, v);
  }

  /** A transaction that runs commits or not, and settles its task. */
  ghost predicate Ran(w: D.World, t: nat, pick: Choice, v: D.World) {
    && t in w.tasks && w.tasks[t].stage.Checked? && pick.newId !in w.db.messages && v.submitted == w.submitted
    && (v.db == w.db || Transact(w.db, w.tasks[t].cmd, w.tasks[t].stage.accepted, pick) == Committed(v.db))
    && forall q | q in v.tasks :: q in w.tasks && v.tasks[q].cmd == w.tasks[q].cmd
         && (v.tasks[q] == w.tasks[q] || !v.tasks[q].stage.Checked?)
  }

  lemma TransactionRan(w: D.World, t: nat, pick: Choice, v: D.World)
    requires v == D.Next(w, D.RunTransaction(t, pick))
    ensures v == w || Ran(w, t, pick, v)
  {
  }

  lemma {:induction false} RanInv(w: D.World, t: nat, pick: Choice, v: D.World)
    requires Inv(w) && Ran(w, t, pick, v)
    ensures Inv(v)
  {
    if v.db != w.db { CommitWarranted(w.db, w.tasks[t], pick, v.db, w.submitted); }
    DbStepInv(w, v);
  }

  /** The other steps leave the database alone. */
  lemma {:induction false} TaskStepInv(w: D.World, s: D.Step, v: D.World)
    requires Inv(w) && v == D.Next(w, s)
    requires s.Submit? || s.Deliver? || s.RunCheck? || s.Acknowledge? || s.Crash?
    ensures Inv(v)
  {
    SubmitWarranted(w.db, w.submitted, v.submitted);
    forall t | t in v.tasks && v.tasks[t].stage.Checked? && !(t in w.tasks && v.tasks[t] == w.tasks[t])
      ensures Vetted(v.db, v.tasks[t])
    {
      CheckExactly(w.db, v.tasks[t].cmd);
    }
  }

  lemma {:induction false} RunInv(w: D.World, steps: seq<D.Step>)
    requires Inv(w)
    ensures Inv(D.Run(w, steps))
    decreases |steps|
  {
    if steps != [] {
      NextInv(w, steps[0]);
      RunInv(D.Next(w, steps[0]), steps[1..]);
    }
  }

  // ---------- Members ----------

  /** The conversation's members are these, with these roles. */
  ghost predicate Seated(db: Db, c: ConversationId, seats: map<UserId, Role>) {
    && c in db.conversations
    && (forall u :: u in seats <==> u in db.conversations[c].members)
    && (forall u :: u in seats && u in db.conversations[c].members ==> db.conversations[c].members[u].role == seats[u])
  }

  lemma SeatsLast(a: Db, b: Db, c: ConversationId, seats: map<UserId, Role>)
    requires Lasts(a, b) && Seated(a, c, seats) && c in b.conversations
    ensures Seated(b, c, seats)
  {
  }

  lemma {:induction false} NextLasts(w: D.World, s: D.Step)
    ensures Lasts(w.db, D.Next(w, s).db)
    ensures forall c :: c in w.db.conversations ==> c in D.Next(w, s).db.conversations
    ensures forall c :: c in D.Next(w, s).db.conversations && c !in w.db.conversations ==>
      s.CreateConversation? && s.c == c && Seated(D.Next(w, s).db, c, s.members)
  {
    var v := D.Next(w, s);
    if s.RunTransaction? {
      TransactionRan(w, s.task, s.pick, v);
      if v.db != w.db {
        TransactLasts(w.db, w.tasks[s.task].cmd, w.tasks[s.task].stage.accepted, s.pick, v.db);
        TransactKeepsConversations(w.db, w.tasks[s.task].cmd, w.tasks[s.task].stage.accepted, s.pick, v.db);
      }
    } else if s.CreateConversation? || s.Tombstone? {
      ApiLasts(w.db, s, v.db);
    }
  }

  lemma TransactKeepsConversations(a: Db, cmd: Command, accepted: nat, pick: Choice, b: Db)
    requires Transact(a, cmd, accepted, pick) == Committed(b)
    ensures b.conversations.Keys == a.conversations.Keys
  {
  }

  lemma {:induction false} SeatsKept(w: D.World, steps: seq<D.Step>, c: ConversationId, seats: map<UserId, Role>)
    requires Seated(w.db, c, seats)
    ensures Seated(D.Run(w, steps).db, c, seats)
    decreases |steps|
  {
    if steps != [] {
      NextLasts(w, steps[0]);
      SeatsLast(w.db, D.Next(w, steps[0]).db, c, seats);
      SeatsKept(D.Next(w, steps[0]), steps[1..], c, seats);
    }
  }

  /** A conversation of any run has the members and roles it was created with. */
  lemma {:induction false} MembersAsCreated(w: D.World, steps: seq<D.Step>, c: ConversationId)
    requires c !in w.db.conversations && c in D.Run(w, steps).db.conversations
    ensures exists i ::
      && 0 <= i < |steps| && steps[i].CreateConversation? && steps[i].c == c
      && Seated(D.Run(w, steps).db, c, steps[i].members)
    decreases |steps|
  {
    var s, v := steps[0], D.Next(w, steps[0]);
    NextLasts(w, s);
    if c in v.db.conversations {
      SeatsKept(v, steps[1..], c, s.members);
      assert steps[0] == s;
    } else {
      MembersAsCreated(v, steps[1..], c);
      var i :| 0 <= i < |steps[1..]| && steps[1..][i].CreateConversation? && steps[1..][i].c == c
               && Seated(D.Run(v, steps[1..]).db, c, steps[1..][i].members);
      assert steps[i + 1] == steps[1..][i];
    }
  }

  // ---------- Main results ----------

  /**
   Nothing without a command. After any run, every announced event except the opening and closing
   of conversations, every text, deletion and reaction, and every positive watermark was asked
   for by a submitted command of someone entitled to it; a receipt never passes the sequence asked.
   */
  lemma {:induction false} OnlyAsked(bots: map<UserId, bool>, steps: seq<D.Step>)
    ensures var w := D.Run(D.Initial(bots), steps); Warranted(w.db, w.submitted)
  {
    RunInv(D.Initial(bots), steps);
  }

  /**
   Senders belong: after any run every stored message was sent by a member of its conversation, a
   bot's by an enabled bot, and answers, if any, a message of that conversation.
   */
  lemma {:induction false} SendersBelong(bots: map<UserId, bool>, steps: seq<D.Step>, id: MessageId)
    requires id in D.Run(D.Initial(bots), steps).db.messages
    ensures var db := D.Run(D.Initial(bots), steps).db; var m := db.messages[id];
      && m.conversationId in db.conversations && m.senderId in db.conversations[m.conversationId].members
      && (m.senderType == BotSender ==> m.senderId in db.bots && db.bots[m.senderId])
      && (m.replyToId.Some? ==> Holds(db, m.conversationId, m.replyToId.value))
  {
    var w := D.Run(D.Initial(bots), steps);
    D.ExactlyOnce(bots, steps);
    OnlyAsked(bots, steps);
    SenderBelongs(w.db, w.submitted, id);
  }

  lemma {:induction false} SenderBelongs(db: Db, submitted: set<Command>, id: MessageId)
    requires D.Ledger(db) && LogAsked(db, submitted) && id in db.messages
    ensures var m := db.messages[id];
      && Belongs(db, m.senderId, m.conversationId) && (m.senderType == BotSender ==> Serves(db, m.senderId))
      && Answers(db, m.conversationId, m.replyToId)
  {
    var i :| D.CreatedAt(db.outbox, i, id);
    var e := db.outbox[i];
    assert D.SameIdentity(e.message, db.messages[id]);
    assert Asked(db, submitted, e);
  }

  /**
   A receipt goes no further than asked: every announced value, and every positive watermark, is
   at most the sequence of a submitted receipt of that user, kind and conversation.
   */
  lemma {:induction false} ReceiptsAsked(bots: map<UserId, bool>, steps: seq<D.Step>, c: ConversationId, u: UserId)
    ensures var w := D.Run(D.Initial(bots), steps);
      && (forall s: nat, r: UserId | ReceiptRead(c, u, s, r) in w.db.outbox ::
            exists asked: nat :: MarkRead(Some(u), c, asked) in w.submitted && s <= asked)
      && (forall s: nat, r: UserId | ReceiptDelivered(c, u, s, r) in w.db.outbox ::
            exists asked: nat :: MarkDelivered(Some(u), c, asked) in w.submitted && s <= asked)
      && (Belongs(w.db, u, c) ==>
            var m := w.db.conversations[c].members[u];
            && (m.lastRead > 0 ==>
                  exists asked: nat :: MarkRead(Some(u), c, asked) in w.submitted && m.lastRead <= asked)
            && (m.lastDelivered > 0 ==>
                  exists asked: nat :: MarkDelivered(Some(u), c, asked) in w.submitted && m.lastDelivered <= asked))
  {
    var w := D.Run(D.Initial(bots), steps);
    OnlyAsked(bots, steps);
    forall s: nat, r: UserId | ReceiptRead(c, u, s, r) in w.db.outbox
      ensures exists asked: nat :: MarkRead(Some(u), c, asked) in w.submitted && s <= asked
    {
      ReadAsked(w.db, w.submitted, c, u, s, r);
    }
    forall s: nat, r: UserId | ReceiptDelivered(c, u, s, r) in w.db.outbox
      ensures exists asked: nat :: MarkDelivered(Some(u), c, asked) in w.submitted && s <= asked
    {
      DeliveredAsked(w.db, w.submitted, c, u, s, r);
    }
    if Belongs(w.db, u, c) {
      var m := w.db.conversations[c].members[u];
      if m.lastRead > 0 { ReadAsked(w.db, w.submitted, c, u, m.lastRead, u); }
      if m.lastDelivered > 0 { DeliveredAsked(w.db, w.submitted, c, u, m.lastDelivered, u); }
    }
  }

  lemma {:induction false} ReadAsked(db: Db, submitted: set<Command>, c: ConversationId, u: UserId, s: nat, r: UserId)
    requires LogAsked(db, submitted)
    requires ReceiptRead(c, u, s, r) in db.outbox || Asked(db, submitted, ReceiptRead(c, u, s, r))
    ensures exists asked: nat :: MarkRead(Some(u), c, asked) in submitted && s <= asked
  {
    var e := ReceiptRead(c, u, s, r);
    if i :| 0 <= i < |db.outbox| && db.outbox[i] == e { assert Asked(db, submitted, db.outbox[i]); }
    var cmd :| cmd in submitted && Entitled(db, cmd) && Asks(cmd, e);
    assert MarkRead(Some(u), c, cmd.sequence) in submitted;
  }

  lemma {:induction false} DeliveredAsked(db: Db, submitted: set<Command>, c: ConversationId, u: UserId, s: nat,
      r: UserId)
    requires LogAsked(db, submitted)
    requires ReceiptDelivered(c, u, s, r) in db.outbox || Asked(db, submitted, ReceiptDelivered(c, u, s, r))
    ensures exists asked: nat :: MarkDelivered(Some(u), c, asked) in submitted && s <= asked
  {
    var e := ReceiptDelivered(c, u, s, r);
    if i :| 0 <= i < |db.outbox| && db.outbox[i] == e { assert Asked(db, submitted, db.outbox[i]); }
    var cmd :| cmd in submitted && Entitled(db, cmd) && Asks(cmd, e);
    assert MarkDelivered(Some(u), c, cmd.sequence) in submitted;
  }
}
