/**
 Runs of the chat worker under at-least-once delivery: commands submitted by clients,
 delivered any number of times, handled in interleaved stages, crashed at any stage,
 and acknowledged only when their handler has settled.
 */
module Delivery {
  import opened Domain
  import opened Authority

  /** Where a delivered command stands in its handler. */
  datatype Stage = Received | Checked(accepted: nat) | Settled(outcome: Outcome)

  datatype Task = Task(cmd: Command, stage: Stage)

  /** `acked` holds every (command, outcome) whose PUBACK was sent. */
  datatype World = World(db: Db, submitted: set<Command>, tasks: map<nat, Task>, acked: set<(Command, Outcome)>)

  datatype Step =
    | CreateConversation(c: ConversationId, members: map<UserId, Role>)
    | Tombstone(c: ConversationId)
    | Submit(cmd: Command)
    | Deliver(task: nat, cmd: Command)
    | RunCheck(task: nat)
    | RunTransaction(task: nat, pick: Choice)
    | Acknowledge(task: nat)
    | Crash(task: nat)

  function CreateIn(db: Db, c: ConversationId, members: map<UserId, Role>): Db {
    if c in db.conversations then db
    else db.(
      conversations := db.conversations[c := Conversation(0, false, map u | u in members :: Member(members[u], 0, 0))],
      outbox := db.outbox + [ConversationCreated(c, members.Keys)])
  }

  function TombstoneIn(db: Db, c: ConversationId): Db {
    if c !in db.conversations || db.conversations[c].deleted then db
    else db.(
      conversations := db.conversations[c := db.conversations[c].(deleted := true)],
      outbox := db.outbox + [ConversationDeleted(c, db.conversations[c].members.Keys)])
  }

  /** A receipt is fanned out to every member; a delivered receipt leaves the acting user out. */
  function Recipients(db: Db, cmd: Command): set<UserId> {
    match cmd
    case MarkRead(_, c, _) => if c in db.conversations then db.conversations[c].members.Keys else {}
    case MarkDelivered(Some(u), c, _) => if c in db.conversations then db.conversations[c].members.Keys - {u} else {}
    case _ => {}
  }

  /** A query result lists every selected user once, in some order. */
  predicate Lists(order: seq<UserId>, members: set<UserId>) {
    (set u | u in order) == members && (forall i, j :: 0 <= i < j < |order| ==> order[i] != order[j])
  }

  /** Primary keys are cuids, so a transaction picks an unused one. */
  predicate PickOk(db: Db, cmd: Command, pick: Choice) {
    pick.newId !in db.messages && ((cmd.MarkRead? || cmd.MarkDelivered?) ==> Lists(pick.order, Recipients(db, cmd)))
  }

  function AfterCheck(w: World, t: nat): World
    requires t in w.tasks
  {
    var cmd := w.tasks[t].cmd;
    var stage :=
      match Check(w.db, cmd)
      case Proceed(accepted) => Checked(accepted)
      case Refuse => Settled(Refused)
      case Ignore => Settled(Dropped);
    w.(tasks := w.tasks[t := Task(cmd, stage)])
  }

  function AfterTransaction(w: World, t: nat, pick: Choice): World
    requires t in w.tasks && w.tasks[t].stage.Checked?
  {
    var cmd := w.tasks[t].cmd;
    var r := Transact(w.db, cmd, w.tasks[t].stage.accepted, pick);
    w.(db := if r.Committed? then r.db else w.db,
       tasks := w.tasks[t := Task(cmd, Settled(Settle(w.db, cmd, r)))])
  }

  /** A step that is not enabled leaves the world as it is. */
  function Next(w: World, s: Step): World {
    match s
    case CreateConversation(c, members) => w.(db := CreateIn(w.db, c, members))
    case Tombstone(c) => w.(db := TombstoneIn(w.db, c))
    case Submit(cmd) => w.(submitted := w.submitted + {cmd})
    case Deliver(t, cmd) =>
      if cmd in w.submitted && t !in w.tasks then w.(tasks := w.tasks[t := Task(cmd, Received)]) else w
    case RunCheck(t) =>
      if t in w.tasks && w.tasks[t].stage.Received? then AfterCheck(w, t) else w
    case RunTransaction(t, pick) =>
      if t in w.tasks && w.tasks[t].stage.Checked? && PickOk(w.db, w.tasks[t].cmd, pick)
      then AfterTransaction(w, t, pick) else w
    case Acknowledge(t) =>
      if t in w.tasks && w.tasks[t].stage.Settled? && w.tasks[t].stage.outcome != Redeliver
      then w.(tasks := w.tasks - {t}, acked := w.acked + {(w.tasks[t].cmd, w.tasks[t].stage.outcome)})
      else w
    case Crash(t) => w.(tasks := w.tasks - {t})
  }

  function Run(w: World, steps: seq<Step>): World
    decreases |steps|
  {
    if steps == [] then w else Run(Next(w, steps[0]), steps[1..])
  }

  function Initial(bots: map<UserId, bool>): World {
    World(Db(map[], map[], map[], bots, []), {}, map[], {})
  }

  // ---------- The database invariant ----------

  ghost predicate Placed(db: Db) {
    forall id :: id in db.messages ==>
      var m := db.messages[id];
      m.id == id && m.conversationId in db.conversations
      && 1 <= m.sequence <= db.conversations[m.conversationId].lastSequence
  }

  ghost predicate SlotsUnique(db: Db) {
    forall i, j | i in db.messages && j in db.messages && i != j ::
      !(db.messages[i].conversationId == db.messages[j].conversationId
        && db.messages[i].sequence == db.messages[j].sequence)
  }

  ghost predicate ClientIdsUnique(db: Db) {
    forall i, j | i in db.messages && j in db.messages && i != j ::
      db.messages[i].clientMessageId != db.messages[j].clientMessageId
  }

  ghost predicate Dense(db: Db) {
    forall c, k :: c in db.conversations && 1 <= k <= db.conversations[c].lastSequence ==> SlotTaken(db, c, k)
  }

  ghost predicate ReactionsPlaced(db: Db) {
    forall k :: k in db.reactions ==> InConversation(db, k.messageId, db.reactions[k])
  }

  ghost predicate WatermarksBounded(db: Db) {
    forall c, u :: IsMember(db, c, u) ==>
      db.conversations[c].members[u].lastRead <= db.conversations[c].lastSequence
      && db.conversations[c].members[u].lastDelivered <= db.conversations[c].lastSequence
  }

  ghost predicate Sound(db: Db) {
    Placed(db) && SlotsUnique(db) && ClientIdsUnique(db) && Dense(db) && ReactionsPlaced(db) && WatermarksBounded(db)
  }

  /** What no step ever takes back. */
  ghost predicate Grows(a: Db, b: Db) {
    && (forall id :: id in a.messages ==> id in b.messages && SameIdentity(a.messages[id], b.messages[id]))
    && (forall c :: c in a.conversations ==> c in b.conversations && Advances(a.conversations[c], b.conversations[c]))
    && a.outbox <= b.outbox
  }

  predicate SameIdentity(m: Message, n: Message) {
    m.(content := "", edited := false, deleted := false) == n.(content := "", edited := false, deleted := false)
  }

  ghost predicate Advances(a: Conversation, b: Conversation) {
    && a.lastSequence <= b.lastSequence
    && a.members.Keys == b.members.Keys
    && forall u :: u in a.members ==>
         a.members[u].lastRead <= b.members[u].lastRead && a.members[u].lastDelivered <= b.members[u].lastDelivered
  }

  /** Facts a check established and that stay true until its transaction. */
  ghost predicate StillValid(db: Db, task: Task) {
    task.stage.Checked? ==>
      match task.cmd
      case Edit(_, c, id, _) => InConversation(db, id, c)
      case Delete(_, c, id) => InConversation(db, id, c)
      case AddReaction(_, c, id, _) => InConversation(db, id, c)
      case MarkRead(_, c, _) => c in db.conversations && task.stage.accepted <= db.conversations[c].lastSequence
      case MarkDelivered(_, c, _) => c in db.conversations && task.stage.accepted <= db.conversations[c].lastSequence
      case _ => true
  }

  // ---------- Each transaction keeps the invariant ----------

  /** The committed send as one extension of the database, free of the unique-index checks. */
  ghost predicate Inserted(a: Db, b: Db, m: Message) {
    && m.conversationId in a.conversations
    && m.sequence == a.conversations[m.conversationId].lastSequence + 1
    && m.id !in a.messages
    && b.messages == a.messages[m.id := m]
    && b.conversations
         == a.conversations[m.conversationId := a.conversations[m.conversationId].(lastSequence := m.sequence)]
    && b.reactions == a.reactions
    && b.outbox == a.outbox + [MessageCreated(m)]
  }

  lemma SendInserts(db: Db, u: UserId, t: SenderType, data: SendData, pick: Choice, b: Db)
    requires TxSend(db, u, t, data, pick) == Committed(b)
    ensures exists m :: Inserted(db, b, m) && m.clientMessageId == data.clientMessageId
                     && !ClientIdTaken(db, m.clientMessageId)
  {
  }

  lemma InsertPlaced(a: Db, b: Db, m: Message)
    requires Inserted(a, b, m) && Placed(a)
    ensures Placed(b) && Grows(a, b)
  {
  }

  lemma InsertUnique(a: Db, b: Db, m: Message)
    requires Inserted(a, b, m) && Placed(a) && SlotsUnique(a) && ClientIdsUnique(a)
    requires !ClientIdTaken(a, m.clientMessageId)
    ensures SlotsUnique(b) && ClientIdsUnique(b)
  {
  }

  lemma {:induction false} InsertDense(a: Db, b: Db, m: Message)
    requires Inserted(a, b, m) && Dense(a)
    ensures Dense(b)
  {
    forall c, k | c in b.conversations && 1 <= k <= b.conversations[c].lastSequence ensures SlotTaken(b, c, k) {
      if c == m.conversationId && k == m.sequence {
        assert b.messages[m.id] == m;
      } else {
        assert SlotTaken(a, c, k);
        var id :| id in a.messages && a.messages[id].conversationId == c && a.messages[id].sequence == k;
        assert b.messages[id] == a.messages[id];
      }
    }
  }

  lemma InsertRest(a: Db, b: Db, m: Message)
    requires Inserted(a, b, m) && ReactionsPlaced(a) && WatermarksBounded(a)
    ensures ReactionsPlaced(b) && WatermarksBounded(b)
  {
  }

  lemma {:induction false} SendSound(db: Db, u: UserId, t: SenderType, data: SendData, pick: Choice, b: Db)
    requires Sound(db) && TxSend(db, u, t, data, pick) == Committed(b)
    ensures Sound(b) && Grows(db, b)
  {
    SendInserts(db, u, t, data, pick, b);
    var m :| Inserted(db, b, m) && !ClientIdTaken(db, m.clientMessageId);
    InsertPlaced(db, b, m);
    InsertUnique(db, b, m);
    InsertDense(db, b, m);
    InsertRest(db, b, m);
  }

  /** Edit and delete rewrite one row without touching its identity. */
  ghost predicate Rewritten(a: Db, b: Db, id: MessageId) {
    && id in a.messages
    && b.messages.Keys == a.messages.Keys
    && (forall i :: i in a.messages && i != id ==> b.messages[i] == a.messages[i])
    && SameIdentity(a.messages[id], b.messages[id])
    && b.conversations == a.conversations
    && b.reactions == a.reactions
    && a.outbox <= b.outbox
  }

  lemma EditRewrites(db: Db, c: ConversationId, id: MessageId, content: string, b: Db)
    ensures TxEdit(db, c, id, content) == Committed(b) ==> Rewritten(db, b, id)
    ensures TxDelete(db, c, id) == Committed(b) ==> Rewritten(db, b, id)
  {
  }

  lemma {:induction false} RewriteDense(a: Db, b: Db, id: MessageId)
    requires Rewritten(a, b, id) && Dense(a) && ReactionsPlaced(a) && WatermarksBounded(a)
    ensures Dense(b) && ReactionsPlaced(b) && WatermarksBounded(b)
  {
    forall c, k | c in b.conversations && 1 <= k <= b.conversations[c].lastSequence ensures SlotTaken(b, c, k) {
      assert SlotTaken(a, c, k);
      var i :| i in a.messages && a.messages[i].conversationId == c && a.messages[i].sequence == k;
      assert b.messages[i].conversationId == c && b.messages[i].sequence == k;
    }
    forall k | k in b.reactions ensures InConversation(b, k.messageId, b.reactions[k]) {
      assert InConversation(a, k.messageId, a.reactions[k]);
    }
    assert forall c, u :: IsMember(b, c, u) ==> IsMember(a, c, u);
  }

  lemma {:induction false} RewriteUnique(a: Db, b: Db, id: MessageId)
    requires Rewritten(a, b, id) && Placed(a) && SlotsUnique(a) && ClientIdsUnique(a)
    ensures Placed(b) && SlotsUnique(b) && ClientIdsUnique(b) && Grows(a, b)
  {
    assert forall i :: i in a.messages ==> SameIdentity(a.messages[i], b.messages[i]);
  }

  lemma {:induction false} RewriteSound(a: Db, b: Db, id: MessageId)
    requires Rewritten(a, b, id) && Sound(a)
    ensures Sound(b) && Grows(a, b)
  {
    RewriteDense(a, b, id);
    RewriteUnique(a, b, id);
  }

  lemma {:induction false} ReactionsSound(a: Db, b: Db)
    requires Sound(a) && ReactionsPlaced(b)
    requires b.messages == a.messages && b.conversations == a.conversations && a.outbox <= b.outbox
    ensures Sound(b) && Grows(a, b)
  {
    assert forall c, k :: SlotTaken(a, c, k) ==> SlotTaken(b, c, k);
    assert forall c, u :: IsMember(b, c, u) ==> IsMember(a, c, u);
  }

  lemma {:induction false} AddReactionSound(db: Db, u: UserId, c: ConversationId, id: MessageId, emoji: Emoji, b: Db)
    requires Sound(db) && InConversation(db, id, c) && TxAddReaction(db, u, c, id, emoji) == Committed(b)
    ensures Sound(b) && Grows(db, b)
  {
    forall k | k in b.reactions ensures InConversation(b, k.messageId, b.reactions[k]) {
      if k in db.reactions { assert InConversation(db, k.messageId, db.reactions[k]); }
    }
    ReactionsSound(db, b);
  }

  lemma RemovalPlaced(db: Db, u: UserId, c: ConversationId, id: MessageId, emoji: Emoji, b: Db)
    requires ReactionsPlaced(db) && TxRemoveReaction(db, u, c, id, emoji) == Committed(b)
    ensures ReactionsPlaced(b)
    ensures b.messages == db.messages && b.conversations == db.conversations && db.outbox <= b.outbox
  {
  }

  lemma {:induction false} RemoveReactionSound(db: Db, u: UserId, c: ConversationId, id: MessageId, emoji: Emoji, b: Db)
    requires Sound(db) && TxRemoveReaction(db, u, c, id, emoji) == Committed(b)
    ensures Sound(b) && Grows(db, b)
  {
    RemovalPlaced(db, u, c, id, emoji, b);
    ReactionsSound(db, b);
  }

  ghost predicate MembersAdvance(a: Db, b: Db) {
    && (forall c | c in a.conversations :: c in b.conversations
          && b.conversations[c].lastSequence == a.conversations[c].lastSequence
          && Advances(a.conversations[c], b.conversations[c]))
    && (forall c | c in b.conversations && c !in a.conversations :: b.conversations[c].lastSequence == 0)
  }

  /** Only the conversation table changes, and every row of it only advances. */
  lemma {:induction false} ConversationsSound(a: Db, b: Db)
    requires Sound(a) && WatermarksBounded(b)
    requires b.messages == a.messages && b.reactions == a.reactions && a.outbox <= b.outbox
    requires MembersAdvance(a, b)
    ensures Sound(b) && Grows(a, b)
  {
    forall c, k | c in b.conversations && 1 <= k <= b.conversations[c].lastSequence ensures SlotTaken(b, c, k) {
      assert c in a.conversations && SlotTaken(a, c, k);
    }
    forall k | k in b.reactions ensures InConversation(b, k.messageId, b.reactions[k]) {
      assert InConversation(a, k.messageId, a.reactions[k]);
    }
  }

  lemma ReceiptBounded(db: Db, u: UserId, c: ConversationId, accepted: nat, order: seq<UserId>, read: bool, b: Db)
    requires WatermarksBounded(db) && c in db.conversations && accepted <= db.conversations[c].lastSequence
    requires TxReceipt(db, u, c, accepted, order, read) == Committed(b)
    ensures WatermarksBounded(b)
  {
  }

  lemma {:induction false} ReceiptAdvances(db: Db, u: UserId, c: ConversationId, accepted: nat, order: seq<UserId>,
      read: bool, b: Db)
    requires TxReceipt(db, u, c, accepted, order, read) == Committed(b)
    ensures MembersAdvance(db, b) && db.outbox <= b.outbox
    ensures b.messages == db.messages && b.reactions == db.reactions
  {
    if b != db {
      assert b.conversations.Keys == db.conversations.Keys;
      assert b.conversations[c].members.Keys == db.conversations[c].members.Keys;
    }
  }

  lemma {:induction false} ReceiptSound(db: Db, u: UserId, c: ConversationId, accepted: nat, order: seq<UserId>,
      read: bool, b: Db)
    requires Sound(db) && c in db.conversations && accepted <= db.conversations[c].lastSequence
    requires TxReceipt(db, u, c, accepted, order, read) == Committed(b)
    ensures Sound(b) && Grows(db, b)
  {
    ReceiptBounded(db, u, c, accepted, order, read, b);
    ReceiptAdvances(db, u, c, accepted, order, read, b);
    ConversationsSound(db, b);
  }

  lemma CreateBounded(db: Db, c: ConversationId, members: map<UserId, Role>, b: Db)
    requires WatermarksBounded(db) && b == CreateIn(db, c, members)
    ensures WatermarksBounded(b) && MembersAdvance(db, b) && db.outbox <= b.outbox
    ensures b.messages == db.messages && b.reactions == db.reactions
  {
  }

  lemma {:induction false} CreateSound(db: Db, c: ConversationId, members: map<UserId, Role>, b: Db)
    requires Sound(db) && b == CreateIn(db, c, members)
    ensures Sound(b) && Grows(db, b)
  {
    CreateBounded(db, c, members, b);
    ConversationsSound(db, b);
  }

  lemma TombstoneBounded(db: Db, c: ConversationId, b: Db)
    requires WatermarksBounded(db) && b == TombstoneIn(db, c)
    ensures WatermarksBounded(b) && MembersAdvance(db, b) && db.outbox <= b.outbox
    ensures b.messages == db.messages && b.reactions == db.reactions
  {
  }

  lemma {:induction false} TombstoneSound(db: Db, c: ConversationId, b: Db)
    requires Sound(db) && b == TombstoneIn(db, c)
    ensures Sound(b) && Grows(db, b)
  {
    TombstoneBounded(db, c, b);
    ConversationsSound(db, b);
  }

  /** Whatever commits, commits soundly, however stale the check that let it through. */
  lemma {:induction false} TransactSound(db: Db, task: Task, pick: Choice, b: Db)
    requires Sound(db) && task.stage.Checked? && StillValid(db, task)
    requires Transact(db, task.cmd, task.stage.accepted, pick) == Committed(b)
    ensures Sound(b) && Grows(db, b)
  {
    match task.cmd
    case Send(actor, data) => SendSound(db, actor.value, UserSender, data, pick, b);
    case BotSend(botId, data) => SendSound(db, botId, BotSender, data, pick, b);
    case Edit(_, c, id, content) => EditRewrites(db, c, id, content, b); RewriteSound(db, b, id);
    case Delete(_, c, id) => EditRewrites(db, c, id, "", b); RewriteSound(db, b, id);
    case AddReaction(actor, c, id, emoji) => AddReactionSound(db, actor.value, c, id, emoji, b);
    case RemoveReaction(actor, c, id, emoji) => RemoveReactionSound(db, actor.value, c, id, emoji, b);
    case MarkRead(actor, c, s) => ReceiptSound(db, actor.value, c, task.stage.accepted, pick.order, true, b);
    case MarkDelivered(actor, c, s) => ReceiptSound(db, actor.value, c, task.stage.accepted, pick.order, false, b);
  }

  /** The (conversationId, sequence) index never fires: only a known clientMessageId or primary key aborts a send. */
  lemma SequenceIndexNeverFires(db: Db, u: UserId, t: SenderType, data: SendData, pick: Choice)
    requires Sound(db)
    ensures TxSend(db, u, t, data, pick).UniqueViolation? <==>
      && data.conversationId in db.conversations
      && (pick.newId in db.messages || ClientIdTaken(db, data.clientMessageId))
  {
  }

  // ---------- The outbox ledger of created messages ----------

  predicate CreatedAt(outbox: seq<Event>, i: int, id: MessageId) {
    0 <= i < |outbox| && outbox[i].MessageCreated? && outbox[i].message.id == id
  }

  /** One message.created row per message, carrying its identity. */
  ghost predicate Ledger(db: Db) {
    && (forall i, id :: CreatedAt(db.outbox, i, id)
         ==> id in db.messages && SameIdentity(db.outbox[i].message, db.messages[id]))
    && (forall i, j, id :: CreatedAt(db.outbox, i, id) && CreatedAt(db.outbox, j, id) ==> i == j)
    && (forall id :: id in db.messages ==> exists i :: CreatedAt(db.outbox, i, id))
  }

  /** A conversation's message.created rows stand in the outbox in sequence order. */
  ghost predicate LedgerOrdered(db: Db) {
    forall i, j | 0 <= i < j < |db.outbox| && db.outbox[i].MessageCreated? && db.outbox[j].MessageCreated? ::
      db.outbox[i].message.conversationId == db.outbox[j].message.conversationId ==>
        db.outbox[i].message.sequence < db.outbox[j].message.sequence
  }

  predicate Originates(cmd: Command, m: Message) {
    && (cmd.Send? || cmd.BotSend?)
    && (if cmd.Send? then cmd.actor == Some(m.senderId) && m.senderType == UserSender
        else cmd.botId == m.senderId && m.senderType == BotSender)
    && cmd.data == SendData(m.conversationId, m.clientMessageId, m.kind, m.content, m.replyToId)
  }

  /** Every announced message is the message some submitted command asked for. */
  ghost predicate Genuine(db: Db, submitted: set<Command>) {
    forall i | 0 <= i < |db.outbox| && db.outbox[i].MessageCreated? ::
      exists cmd :: cmd in submitted && Originates(cmd, db.outbox[i].message)
  }

  lemma {:induction false} LedgerInsert(a: Db, b: Db, m: Message)
    requires Inserted(a, b, m) && Ledger(a)
    ensures Ledger(b)
  {
    forall i, id ensures CreatedAt(b.outbox, i, id) <==> CreatedAt(a.outbox, i, id) || (i == |a.outbox| && id == m.id) {
    }
    forall id | id in b.messages ensures exists i :: CreatedAt(b.outbox, i, id) {
      if id == m.id {
        assert CreatedAt(b.outbox, |a.outbox|, id);
      } else {
        var i :| CreatedAt(a.outbox, i, id);
        assert CreatedAt(b.outbox, i, id);
      }
    }
  }

  lemma {:induction false} LedgerInsertOrdered(a: Db, b: Db, m: Message)
    requires Inserted(a, b, m) && Placed(a) && Ledger(a) && LedgerOrdered(a)
    ensures LedgerOrdered(b)
  {
    forall i | 0 <= i < |a.outbox| && a.outbox[i].MessageCreated?
      && a.outbox[i].message.conversationId == m.conversationId
      ensures a.outbox[i].message.sequence < m.sequence
    {
      assert CreatedAt(a.outbox, i, a.outbox[i].message.id);
    }
  }

  ghost predicate Quiet(a: Db, b: Db) {
    && a.outbox <= b.outbox
    && (forall i | |a.outbox| <= i < |b.outbox| :: !b.outbox[i].MessageCreated?)
    && a.messages.Keys == b.messages.Keys
    && (forall id | id in a.messages :: SameIdentity(a.messages[id], b.messages[id]))
  }

  lemma {:induction false} LedgerQuiet(a: Db, b: Db, submitted: set<Command>)
    requires Quiet(a, b) && Ledger(a) && LedgerOrdered(a) && Genuine(a, submitted)
    ensures Ledger(b) && LedgerOrdered(b) && Genuine(b, submitted)
  {
    forall i, id ensures CreatedAt(b.outbox, i, id) <==> CreatedAt(a.outbox, i, id) {
      if 0 <= i < |a.outbox| { assert a.outbox[i] == b.outbox[i]; }
    }
    forall i | 0 <= i < |b.outbox| && b.outbox[i].MessageCreated?
      ensures i < |a.outbox| && a.outbox[i] == b.outbox[i]
      ensures exists cmd :: cmd in submitted && Originates(cmd, b.outbox[i].message)
    {
      assert a.outbox[i] == b.outbox[i];
    }
  }

  lemma TransactQuiet(db: Db, cmd: Command, accepted: nat, pick: Choice, b: Db)
    requires Transact(db, cmd, accepted, pick) == Committed(b) && !cmd.Send? && !cmd.BotSend?
    ensures Quiet(db, b)
  {
  }

  ghost predicate Accounted(db: Db, submitted: set<Command>) {
    Ledger(db) && LedgerOrdered(db) && Genuine(db, submitted)
  }

  lemma {:induction false} SendAccounted(db: Db, cmd: Command, u: UserId, t: SenderType, pick: Choice, b: Db,
      submitted: set<Command>)
    requires cmd.Send? || cmd.BotSend?
    requires if cmd.Send? then cmd.actor == Some(u) && t == UserSender else cmd.botId == u && t == BotSender
    requires cmd in submitted && Placed(db) && Accounted(db, submitted)
    requires TxSend(db, u, t, cmd.data, pick) == Committed(b)
    ensures Accounted(b, submitted)
  {
    var m := NewMessage(u, t, cmd.data, db.conversations[cmd.data.conversationId].lastSequence + 1, pick);
    assert Inserted(db, b, m);
    LedgerInsert(db, b, m);
    LedgerInsertOrdered(db, b, m);
    forall i | 0 <= i < |b.outbox| && b.outbox[i].MessageCreated?
      ensures exists cmd :: cmd in submitted && Originates(cmd, b.outbox[i].message)
    {
      if i == |db.outbox| { assert Originates(cmd, b.outbox[i].message); }
    }
  }

  lemma {:induction false} TransactAccounted(db: Db, task: Task, pick: Choice, b: Db, submitted: set<Command>)
    requires Placed(db) && task.stage.Checked? && task.cmd in submitted && Accounted(db, submitted)
    requires Transact(db, task.cmd, task.stage.accepted, pick) == Committed(b)
    ensures Accounted(b, submitted)
  {
    match task.cmd
    case Send(actor, _) => SendAccounted(db, task.cmd, actor.value, UserSender, pick, b, submitted);
    case BotSend(botId, _) => SendAccounted(db, task.cmd, botId, BotSender, pick, b, submitted);
    case _ =>
      TransactQuiet(db, task.cmd, task.stage.accepted, pick, b);
      LedgerQuiet(db, b, submitted);
  }

  // ---------- The invariant of a whole run ----------

  /** An accepted send left its message in its conversation; an accepted bot send at least used its id. */
  ghost predicate Honoured(db: Db, cmd: Command) {
    (cmd.Send? ==> OwnedHere(db, cmd.data)) && (cmd.BotSend? ==> ClientIdTaken(db, cmd.data.clientMessageId))
  }

  ghost predicate TasksFine(w: World) {
    forall t | t in w.tasks ::
      && w.tasks[t].cmd in w.submitted
      && StillValid(w.db, w.tasks[t])
      && (w.tasks[t].stage == Settled(Accepted) ==> Honoured(w.db, w.tasks[t].cmd))
  }

  ghost predicate AcksFine(w: World) {
    forall cmd | (cmd, Accepted) in w.acked :: Honoured(w.db, cmd)
  }

  ghost predicate Inv(w: World) {
    Sound(w.db) && Accounted(w.db, w.submitted) && TasksFine(w) && AcksFine(w)
  }

  lemma HonouredStays(a: Db, b: Db, cmd: Command)
    requires Grows(a, b) && Honoured(a, cmd)
    ensures Honoured(b, cmd)
  {
  }

  lemma ValidStays(a: Db, b: Db, task: Task)
    requires Grows(a, b) && StillValid(a, task)
    ensures StillValid(b, task)
  {
  }

  /** Committing a send honours it, and so does finding it already stored. */
  lemma {:induction false} SettleHonours(db: Db, cmd: Command, accepted: nat, pick: Choice, r: TxResult)
    requires Sound(db) && pick.newId !in db.messages && r == Transact(db, cmd, accepted, pick)
    requires Settle(db, cmd, r) == Accepted
    ensures Honoured(if r.Committed? then r.db else db, cmd)
  {
    if r.Committed? && (cmd.Send? || cmd.BotSend?) {
      assert r.db.messages[pick.newId].clientMessageId == cmd.data.clientMessageId;
    } else if r.UniqueViolation? && cmd.BotSend? {
      SequenceIndexNeverFires(db, cmd.botId, BotSender, cmd.data, pick);
    }
  }

  lemma {:induction false} DbStepKeeps(w: World, v: World)
    requires Inv(w) && Sound(v.db) && Accounted(v.db, w.submitted) && Grows(w.db, v.db)
    requires v == w.(db := v.db)
    ensures Inv(v)
  {
    forall t | t in v.tasks
      ensures StillValid(v.db, v.tasks[t])
      ensures v.tasks[t].stage == Settled(Accepted) ==> Honoured(v.db, v.tasks[t].cmd)
    {
      ValidStays(w.db, v.db, w.tasks[t]);
      if v.tasks[t].stage == Settled(Accepted) { HonouredStays(w.db, v.db, w.tasks[t].cmd); }
    }
    forall cmd | (cmd, Accepted) in v.acked ensures Honoured(v.db, cmd) { HonouredStays(w.db, v.db, cmd); }
  }

  lemma CheckKeeps(w: World, t: nat)
    requires Inv(w) && t in w.tasks
    ensures Inv(AfterCheck(w, t))
  {
  }

  lemma SettledKeeps(w: World, t: nat, cmd: Command, outcome: Outcome, v: World)
    requires Inv(w) && cmd in w.submitted && (outcome == Accepted ==> Honoured(w.db, cmd))
    requires v == w.(tasks := w.tasks[t := Task(cmd, Settled(outcome))])
    ensures Inv(v)
  {
  }

  lemma {:induction false} TransactionKeeps(w: World, t: nat, pick: Choice)
    requires Inv(w) && t in w.tasks && w.tasks[t].stage.Checked? && PickOk(w.db, w.tasks[t].cmd, pick)
    ensures Inv(AfterTransaction(w, t, pick))
  {
    var task := w.tasks[t];
    var r := Transact(w.db, task.cmd, task.stage.accepted, pick);
    var mid := w.(db := if r.Committed? then r.db else w.db);
    if r.Committed? { CommitKeeps(w, task, pick, r.db, mid); }
    if Settle(w.db, task.cmd, r) == Accepted {
      SettleHonours(w.db, task.cmd, task.stage.accepted, pick, r);
    }
    SettledKeeps(mid, t, task.cmd, Settle(w.db, task.cmd, r), AfterTransaction(w, t, pick));
  }

  lemma {:induction false} CommitKeeps(w: World, task: Task, pick: Choice, b: Db, v: World)
    requires Inv(w) && task.cmd in w.submitted && StillValid(w.db, task) && task.stage.Checked?
    requires Transact(w.db, task.cmd, task.stage.accepted, pick) == Committed(b) && v == w.(db := b)
    ensures Inv(v)
  {
    TransactSound(w.db, task, pick, b);
    TransactAccounted(w.db, task, pick, b, w.submitted);
    DbStepKeeps(w, v);
  }

  lemma {:induction false} ApiKeeps(w: World, s: Step)
    requires Inv(w) && (s.CreateConversation? || s.Tombstone?)
    ensures Inv(Next(w, s))
  {
    var v := Next(w, s);
    if s.CreateConversation? {
      CreateSound(w.db, s.c, s.members, v.db);
    } else {
      TombstoneSound(w.db, s.c, v.db);
    }
    LedgerQuiet(w.db, v.db, w.submitted);
    DbStepKeeps(w, v);
  }

  lemma SubmitKeeps(w: World, cmd: Command, v: World)
    requires Inv(w) && v == w.(submitted := w.submitted + {cmd})
    ensures Inv(v)
  {
  }

  /** Tasks come and go at the broker's will; only an acknowledgement adds a promise, and it was kept. */
  lemma TasksKeep(w: World, v: World)
    requires Inv(w) && v == w.(tasks := v.tasks, acked := v.acked)
    requires forall t | t in v.tasks ::
      (t in w.tasks && v.tasks[t] == w.tasks[t]) || (v.tasks[t].cmd in w.submitted && v.tasks[t].stage.Received?)
    requires forall cmd | (cmd, Accepted) in v.acked ::
      (cmd, Accepted) in w.acked || exists t :: t in w.tasks && w.tasks[t] == Task(cmd, Settled(Accepted))
    ensures Inv(v)
  {
  }

  lemma {:induction false} BrokerKeeps(w: World, s: Step)
    requires Inv(w) && (s.Submit? || s.Deliver? || s.Acknowledge? || s.Crash?)
    ensures Inv(Next(w, s))
  {
    if s.Submit? { SubmitKeeps(w, s.cmd, Next(w, s)); } else { TasksKeep(w, Next(w, s)); }
  }

  lemma {:induction false} NextKeeps(w: World, s: Step)
    requires Inv(w)
    ensures Inv(Next(w, s))
  {
    match s
    case CreateConversation(_, _) => ApiKeeps(w, s);
    case Tombstone(_) => ApiKeeps(w, s);
    case RunCheck(t) => if t in w.tasks && w.tasks[t].stage.Received? { CheckKeeps(w, t); }
    case RunTransaction(t, pick) =>
      if t in w.tasks && w.tasks[t].stage.Checked? && PickOk(w.db, w.tasks[t].cmd, pick) {
        TransactionKeeps(w, t, pick);
      }
    case _ => BrokerKeeps(w, s);
  }

  /** No step takes back a row, a watermark or an outbox entry. */
  lemma {:induction false} NextGrows(w: World, s: Step)
    requires Inv(w)
    ensures Grows(w.db, Next(w, s).db)
  {
    var v := Next(w, s);
    match s
    case CreateConversation(c, members) => CreateSound(w.db, c, members, v.db);
    case Tombstone(c) => TombstoneSound(w.db, c, v.db);
    case RunTransaction(t, pick) =>
      if t in w.tasks && w.tasks[t].stage.Checked? && v.db != w.db { TransactSound(w.db, w.tasks[t], pick, v.db); }
    case _ =>
  }

  lemma GrowsOn(a: Db, b: Db, d: Db)
    requires Grows(a, b) && Grows(b, d)
    ensures Grows(a, d)
  {
  }

  lemma {:induction false} RunGrows(w: World, steps: seq<Step>)
    requires Inv(w)
    ensures Grows(w.db, Run(w, steps).db)
    decreases |steps|
  {
    if steps != [] {
      NextKeeps(w, steps[0]);
      NextGrows(w, steps[0]);
      RunGrows(Next(w, steps[0]), steps[1..]);
      GrowsOn(w.db, Next(w, steps[0]).db, Run(w, steps).db);
    }
  }

  lemma InitialInv(bots: map<UserId, bool>)
    ensures Inv(Initial(bots))
  {
  }

  lemma {:induction false} RunKeeps(w: World, steps: seq<Step>)
    requires Inv(w)
    ensures Inv(Run(w, steps))
    decreases |steps|
  {
    if steps != [] {
      NextKeeps(w, steps[0]);
      RunKeeps(Next(w, steps[0]), steps[1..]);
    }
  }

  lemma {:induction false} RunSplit(w: World, a: seq<Step>, b: seq<Step>)
    ensures Run(w, a + b) == Run(Run(w, a), b)
    decreases |a|
  {
    if a == [] {
      assert a + b == b;
    } else {
      assert (a + b)[1..] == a[1..] + b;
      RunSplit(Next(w, a[0]), a[1..], b);
    }
  }

  /** One more step at the end of a run. */
  lemma {:induction false} RunLast(w: World, steps: seq<Step>, s: Step)
    ensures Run(w, steps + [s]) == Next(Run(w, steps), s)
  {
    RunSplit(w, steps, [s]);
    assert [s][1..] == [];
  }

  // ---------- Main results ----------

  /**
   Dense exactly-once sequencing. After any run, with any redelivery, interleaving and
   crashes: every conversation's messages carry exactly the sequences 1..lastSequence, one
   message each; one message per clientMessageId; one message.created row per message, in
   sequence order, announcing what a submitted command asked for; and an acknowledged,
   accepted send is stored in its conversation exactly once.
   */
  lemma {:induction false} ExactlyOnce(bots: map<UserId, bool>, steps: seq<Step>)
    ensures var w := Run(Initial(bots), steps);
      && Placed(w.db) && Dense(w.db) && SlotsUnique(w.db)
      && ClientIdsUnique(w.db)
      && Ledger(w.db) && LedgerOrdered(w.db) && Genuine(w.db, w.submitted)
      && (forall cmd | (cmd, Accepted) in w.acked && cmd.Send? :: OwnedHere(w.db, cmd.data))
  {
    RunKeeps(Initial(bots), steps);
    var w := Run(Initial(bots), steps);
    forall cmd | (cmd, Accepted) in w.acked && cmd.Send? ensures OwnedHere(w.db, cmd.data) {
      assert Honoured(w.db, cmd);
    }
  }

  /** Nothing is acknowledged that its handler left to be redelivered. */
  lemma {:induction false} RedeliveredNotAcked(w: World, steps: seq<Step>)
    requires forall cmd :: (cmd, Redeliver) !in w.acked
    ensures forall cmd :: (cmd, Redeliver) !in Run(w, steps).acked
    decreases |steps|
  {
    if steps != [] { RedeliveredNotAcked(Next(w, steps[0]), steps[1..]); }
  }

  // ---------- Where bot sends promise less than user sends ----------

  predicate ClaimedElsewhere(db: Db, data: SendData) {
    exists id :: id in db.messages && db.messages[id].clientMessageId == data.clientMessageId
                 && db.messages[id].conversationId != data.conversationId
  }

  /**
   A bot send acknowledged after its transaction is stored in its conversation exactly when
   no other conversation already held its clientMessageId: the bot path acknowledges every
   unique violation without looking whose message it hit, while a user send is redelivered.
   */
  lemma {:induction false} BotAckStoresExactly(db: Db, cmd: Command, accepted: nat, pick: Choice, r: TxResult)
    requires Sound(db) && cmd.BotSend? && cmd.data.conversationId in db.conversations && pick.newId !in db.messages
    requires r == Transact(db, cmd, accepted, pick)
    ensures Settle(db, cmd, r) == Accepted
    ensures OwnedHere(if r.Committed? then r.db else db, cmd.data) <==> !ClaimedElsewhere(db, cmd.data)
  {
    SequenceIndexNeverFires(db, cmd.botId, BotSender, cmd.data, pick);
    if r.Committed? {
      assert r.db.messages[pick.newId].conversationId == cmd.data.conversationId;
    }
  }

  /** An id held by another conversation is never stored here, in no continuation of the run. */
  lemma {:induction false} ClaimedForGood(w: World, data: SendData, more: seq<Step>)
    requires Inv(w) && ClaimedElsewhere(w.db, data)
    ensures !OwnedHere(Run(w, more).db, data)
  {
    RunKeeps(w, more);
    RunGrows(w, more);
    var id :| id in w.db.messages && w.db.messages[id].clientMessageId == data.clientMessageId
              && w.db.messages[id].conversationId != data.conversationId;
    var db := Run(w, more).db;
    assert SameIdentity(w.db.messages[id], db.messages[id]);
  }

  /** One bot command, submitted and handled to its acknowledgement. */
  function Served(t: nat, cmd: Command, pick: Choice): seq<Step> {
    [Submit(cmd), Deliver(t, cmd), RunCheck(t), RunTransaction(t, pick), Acknowledge(t)]
  }

  lemma {:induction false} RunFive(w: World, a: Step, b: Step, c: Step, d: Step, e: Step)
    ensures Run(w, [a, b, c, d, e]) == Next(Next(Next(Next(Next(w, a), b), c), d), e)
  {
    RunLast(w, [a, b, c, d], e);
    RunLast(w, [a, b, c], d);
    RunLast(w, [a, b], c);
    RunLast(w, [a], b);
    RunLast(w, [], a);
    assert [a, b, c, d, e] == [a, b, c, d] + [e] && [a, b, c, d] == [a, b, c] + [d];
    assert [a, b, c] == [a, b] + [c] && [a, b] == [a] + [b] && [a] == [] + [a];
  }

  lemma {:induction false} RunServed(w: World, t: nat, cmd: Command, pick: Choice, v: World)
    requires t !in w.tasks && Check(w.db, cmd) == Proceed(0) && PickOk(w.db, cmd, pick)
    requires v == Run(w, Served(t, cmd, pick)) && Settle(w.db, cmd, Transact(w.db, cmd, 0, pick)) == Accepted
    ensures v.db == if Transact(w.db, cmd, 0, pick).Committed? then Transact(w.db, cmd, 0, pick).db else w.db
    ensures v.tasks == w.tasks && v.acked == w.acked + {(cmd, Accepted)}
  {
    RunFive(w, Submit(cmd), Deliver(t, cmd), RunCheck(t), RunTransaction(t, pick), Acknowledge(t));
    var a := Next(w, Submit(cmd));
    var b := Next(a, Deliver(t, cmd));
    var c := Next(b, RunCheck(t));
    assert c.tasks[t] == Task(cmd, Checked(0));
    var d := Next(c, RunTransaction(t, pick));
    assert d.tasks[t] == Task(cmd, Settled(Accepted));
  }

  /** A command submitted, delivered and checked, its transaction still to come. */
  function Checking(t: nat, cmd: Command): seq<Step> {
    [Submit(cmd), Deliver(t, cmd), RunCheck(t)]
  }

  lemma {:induction false} RunChecking(w: World, t: nat, cmd: Command, v: World)
    requires t !in w.tasks && Check(w.db, cmd) == Proceed(0) && v == Run(w, Checking(t, cmd))
    ensures v.db == w.db && v.tasks == w.tasks[t := Task(cmd, Checked(0))]
  {
    RunLast(w, [Submit(cmd), Deliver(t, cmd)], RunCheck(t));
    RunLast(w, [Submit(cmd)], Deliver(t, cmd));
    RunLast(w, [], Submit(cmd));
    assert Checking(t, cmd) == [Submit(cmd), Deliver(t, cmd)] + [RunCheck(t)];
    assert [Submit(cmd), Deliver(t, cmd)] == [Submit(cmd)] + [Deliver(t, cmd)] && [Submit(cmd)] == [] + [Submit(cmd)];
  }

  /** User 7 has sent message 0 to conversation 1. */
  lemma {:induction false} OneSent() returns (steps: seq<Step>, v: World)
    ensures v == Run(Initial(map[]), steps) && v.tasks == map[]
    ensures v.db.messages.Keys == {0} && InConversation(v.db, 0, 1)
    ensures v.db.messages[0].senderId == 7 && v.db.messages[0].senderType == UserSender && !v.db.messages[0].deleted
  {
    var start, create := Initial(map[]), CreateConversation(1, map[7 := Ordinary]);
    var cmd := Send(Some(7), SendData(1, 0, Text, "early", None));
    var w := Next(start, create);
    RunLast(start, [], create);
    assert [] + [create] == [create];
    assert 7 in w.db.conversations[1].members;
    v := Run(w, Served(0, cmd, Choice(0, 0, [])));
    RunServed(w, 0, cmd, Choice(0, 0, []), v);
    steps := [create] + Served(0, cmd, Choice(0, 0, []));
    RunSplit(start, [create], Served(0, cmd, Choice(0, 0, [])));
  }

  /** Bot 7 in two conversations. */
  lemma {:induction false} TwoRooms() returns (steps: seq<Step>, w: World)
    ensures w == Run(Initial(map[7 := true]), steps) && w.tasks == map[]
    ensures w.db.bots == map[7 := true] && w.db.messages == map[]
    ensures IsMember(w.db, 1, 7) && IsMember(w.db, 2, 7)
  {
    var start := Initial(map[7 := true]);
    var one, two := CreateConversation(1, map[7 := Ordinary]), CreateConversation(2, map[7 := Ordinary]);
    steps := [] + [one] + [two];
    RunLast(start, [], one);
    RunLast(start, [] + [one], two);
    w := Run(start, steps);
  }

  /**
   The failing input: bot 7 reuses in conversation 2 the id of its message in conversation 1.
   The run ends with the second send acknowledged as accepted, and however it goes on, its
   conversation never gets the message.
   */
  lemma {:induction false} BotAckWithoutMessage() returns (bots: map<UserId, bool>, steps: seq<Step>, cmd: Command)
    ensures cmd.BotSend? && (cmd, Accepted) in Run(Initial(bots), steps).acked
    ensures forall more :: !OwnedHere(Run(Initial(bots), steps + more).db, cmd.data)
  {
    bots := map[7 := true];
    var first, w := FirstStored();
    cmd := BotSend(7, SendData(2, 5, Text, "pong", None));
    var second := Served(1, cmd, Choice(2, 0, []));
    var u := Run(w, second);
    SecondAcknowledged(w, cmd, u);
    steps := first + second;
    RunSplit(Initial(bots), first, second);
    InitialInv(bots);
    RunKeeps(Initial(bots), steps);
    forall more ensures !OwnedHere(Run(Initial(bots), steps + more).db, cmd.data) {
      RunSplit(Initial(bots), steps, more);
      ClaimedForGood(u, cmd.data, more);
    }
  }

  /** The message of conversation 1 holds the id. */
  predicate HeldInOne(db: Db) {
    && IsMember(db, 2, 7) && db.bots == map[7 := true] && 2 !in db.messages
    && 1 in db.messages && db.messages[1].clientMessageId == 5 && db.messages[1].conversationId == 1
  }

  lemma {:induction false} FirstStored() returns (steps: seq<Step>, v: World)
    ensures v == Run(Initial(map[7 := true]), steps) && v.tasks == map[] && HeldInOne(v.db)
  {
    var rooms, w := TwoRooms();
    var cmd := BotSend(7, SendData(1, 5, Text, "pong", None));
    InitialInv(map[7 := true]);
    RunKeeps(Initial(map[7 := true]), rooms);
    v := Run(w, Served(0, cmd, Choice(1, 0, [])));
    FirstSend(w, cmd, v);
    steps := rooms + Served(0, cmd, Choice(1, 0, []));
    RunSplit(Initial(map[7 := true]), rooms, Served(0, cmd, Choice(1, 0, [])));
  }

  lemma {:induction false} FirstSend(w: World, cmd: Command, v: World)
    requires Sound(w.db) && w.tasks == map[] && w.db.bots == map[7 := true] && w.db.messages == map[]
    requires IsMember(w.db, 1, 7) && IsMember(w.db, 2, 7) && cmd == BotSend(7, SendData(1, 5, Text, "pong", None))
    requires v == Run(w, Served(0, cmd, Choice(1, 0, [])))
    ensures v.tasks == map[] && HeldInOne(v.db)
  {
    SequenceIndexNeverFires(w.db, 7, BotSender, cmd.data, Choice(1, 0, []));
    RunServed(w, 0, cmd, Choice(1, 0, []), v);
  }

  lemma {:induction false} SecondAcknowledged(w: World, cmd: Command, v: World)
    requires HeldInOne(w.db) && w.tasks == map[] && cmd == BotSend(7, SendData(2, 5, Text, "pong", None))
    requires v == Run(w, Served(1, cmd, Choice(2, 0, [])))
    ensures (cmd, Accepted) in v.acked && ClaimedElsewhere(v.db, cmd.data)
  {
    assert ClientIdTaken(w.db, 5);
    RunServed(w, 1, cmd, Choice(2, 0, []), v);
  }
}
