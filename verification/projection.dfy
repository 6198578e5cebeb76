/**
 The outbox tells the whole story: folding the committed log at any client gives back
 the rows the database holds. Stated for every run of the worker, every user, and every
 live conversation.
 */
module Projection {
  import opened Domain
  import opened Authority
  import opened Delivery
  import opened Replay

  function ReactionsOf(db: Db, id: MessageId): set<Reaction> {
    set k | k in db.reactions && k.messageId == id :: k.reaction
  }

  function RowOf(db: Db, id: MessageId): Option<RowView> {
    if id in db.messages then Some(RowView(db.messages[id], ReactionsOf(db, id))) else None
  }

  function ReadOf(members: map<UserId, Member>): map<UserId, nat> {
    map w | w in members :: members[w].lastRead
  }

  /** What GET /conversations?userId=self lists for `c`. */
  function EntryOf(db: Db, self: UserId, c: ConversationId): Option<ConversationView> {
    if IsMember(db, c, self) && !db.conversations[c].deleted
    then Some(ConversationView(db.conversations[c].lastSequence, ReadOf(db.conversations[c].members)))
    else None
  }

  predicate Live(db: Db, c: ConversationId) {
    c in db.conversations && !db.conversations[c].deleted
  }

  /** Rows of live conversations exactly, and no row that is not stored. */
  ghost predicate RowsAgree(db: Db, v: View) {
    && (forall id | id in v.rows ::
          id in db.messages && v.rows[id].message.conversationId == db.messages[id].conversationId)
    && (forall id | id in db.messages && Live(db, db.messages[id].conversationId) :: Get(v.rows, id) == RowOf(db, id))
  }

  ghost predicate EntriesAgree(db: Db, self: UserId, v: View) {
    forall c :: Get(v.conversations, c) == EntryOf(db, self, c)
  }

  /** The client of `self` shows the database. */
  ghost predicate Agrees(db: Db, self: UserId, v: View) {
    RowsAgree(db, v) && EntriesAgree(db, self, v)
  }

  lemma {:induction false} InsertAgrees(a: Db, b: Db, m: Message, self: UserId, v: View)
    requires Inserted(a, b, m) && Placed(a) && ReactionsPlaced(a) && Agrees(a, self, v)
    ensures Agrees(b, self, Apply(self, v, MessageCreated(m)))
  {
    var e := MessageCreated(m);
    var u := Apply(self, v, e);
    assert ReactionsOf(b, m.id) == {} by {
      forall k | k in b.reactions ensures k.messageId != m.id { assert InConversation(a, k.messageId, a.reactions[k]); }
    }
    forall id | id in a.messages
      ensures RowOf(b, id) == RowOf(a, id)
    {
      assert ReactionsOf(b, id) == ReactionsOf(a, id);
    }
    forall c: nat ensures Get(u.conversations, c) == EntryOf(b, self, c) {
      ApplyAt(self, v, e, m.id, c);
      assert Get(v.conversations, c) == EntryOf(a, self, c);
    }
    forall id: nat ensures Get(u.rows, id) == (if id == m.id then Some(RowView(m, {})) else Get(v.rows, id)) {
      ApplyAt(self, v, e, id, m.conversationId);
    }
  }

  /** An event about one stored message, whose row step mirrors what the transaction did to the row. */
  lemma {:induction false} RowEventAgrees(a: Db, b: Db, id: MessageId, e: Event, self: UserId, v: View)
    requires Agrees(a, self, v)
    requires Subject(e) == Some(id) && !e.MessageCreated? && id in a.messages
    requires b.conversations == a.conversations && b.messages.Keys == a.messages.Keys
    requires forall i :: i in a.messages ==> b.messages[i].conversationId == a.messages[i].conversationId
    requires forall i :: i in a.messages && i != id ==> RowOf(b, i) == RowOf(a, i)
    requires RowStep(self, RowOf(a, id), e, id) == RowOf(b, id)
    ensures Agrees(b, self, Apply(self, v, e))
  {
    var u := Apply(self, v, e);
    SameEntries(self, v, e);
    forall i: nat ensures Get(u.rows, i) == (if i == id then RowStep(self, Get(v.rows, i), e, i) else Get(v.rows, i)) {
      ApplyAt(self, v, e, i, 0);
    }
    forall c ensures EntryOf(b, self, c) == EntryOf(a, self, c) {
    }
  }

  lemma SameEntries(self: UserId, v: View, e: Event)
    requires Subject(e).Some? && !e.MessageCreated?
    ensures Apply(self, v, e).conversations == v.conversations
  {
  }

  lemma {:induction false} EditAgrees(a: Db, b: Db, c: ConversationId, id: MessageId, content: string, self: UserId,
      v: View)
    requires TxEdit(a, c, id, content) == Committed(b) && Agrees(a, self, v)
    ensures Agrees(b, self, Apply(self, v, MessageEdited(c, id, content)))
  {
    assert forall i :: ReactionsOf(b, i) == ReactionsOf(a, i);
    RowEventAgrees(a, b, id, MessageEdited(c, id, content), self, v);
  }

  lemma {:induction false} DeleteAgrees(a: Db, b: Db, c: ConversationId, id: MessageId, self: UserId, v: View)
    requires TxDelete(a, c, id) == Committed(b) && Agrees(a, self, v)
    ensures Agrees(b, self, Apply(self, v, MessageDeleted(c, id)))
  {
    assert forall i :: ReactionsOf(b, i) == ReactionsOf(a, i);
    RowEventAgrees(a, b, id, MessageDeleted(c, id), self, v);
  }

  lemma {:induction false} AddReactionAgrees(a: Db, b: Db, u: UserId, c: ConversationId, id: MessageId, emoji: Emoji,
      self: UserId, v: View)
    requires TxAddReaction(a, u, c, id, emoji) == Committed(b) && Agrees(a, self, v)
    ensures Agrees(b, self, Apply(self, v, ReactionAdded(c, id, Reaction(emoji, u))))
  {
    var r := Reaction(emoji, u);
    forall i ensures ReactionsOf(b, i) == if i == id then ReactionsOf(a, i) + {r} else ReactionsOf(a, i) {
      if i == id { assert ReactionKey(id, r) in b.reactions; }
    }
    RowEventAgrees(a, b, id, ReactionAdded(c, id, r), self, v);
  }

  lemma {:induction false} RemoveReactionAgrees(a: Db, b: Db, u: UserId, c: ConversationId, id: MessageId,
      emoji: Emoji, self: UserId, v: View)
    requires TxRemoveReaction(a, u, c, id, emoji) == Committed(b) && b.outbox != a.outbox
    requires ReactionsPlaced(a) && Agrees(a, self, v)
    ensures Agrees(b, self, Apply(self, v, ReactionRemoved(c, id, Reaction(emoji, u))))
  {
    var r := Reaction(emoji, u);
    assert InConversation(a, id, a.reactions[ReactionKey(id, r)]);
    forall i ensures ReactionsOf(b, i) == if i == id then ReactionsOf(a, i) - {r} else ReactionsOf(a, i) {
    }
    RowEventAgrees(a, b, id, ReactionRemoved(c, id, r), self, v);
  }

  lemma {:induction false} CreateEntry(a: Db, b: Db, c: ConversationId, members: map<UserId, Role>, self: UserId)
    requires c !in a.conversations && b == CreateIn(a, c, members)
    ensures ConversationStep(self, None, ConversationCreated(c, members.Keys), c) == EntryOf(b, self, c)
  {
    var stored := b.conversations[c].members;
    assert stored.Keys == members.Keys;
    assert AllUnread(members.Keys) == ReadOf(stored);
  }

  lemma {:induction false} CreateAgrees(a: Db, b: Db, c: ConversationId, members: map<UserId, Role>, self: UserId,
      v: View)
    requires Placed(a) && c !in a.conversations && b == CreateIn(a, c, members) && Agrees(a, self, v)
    ensures Agrees(b, self, Apply(self, v, ConversationCreated(c, members.Keys)))
  {
    var e := ConversationCreated(c, members.Keys);
    var u := Apply(self, v, e);
    CreateEntry(a, b, c, members, self);
    forall d: nat ensures Get(u.conversations, d) == EntryOf(b, self, d) && Get(u.rows, d) == Get(v.rows, d) {
      ApplyAt(self, v, e, d, d);
      assert Get(v.conversations, d) == EntryOf(a, self, d);
    }
    SameCells(u.rows, v.rows);
    RowsUntouched(a, b, v);
  }

  lemma RowsUntouched(a: Db, b: Db, v: View)
    requires b.messages == a.messages && b.reactions == a.reactions && RowsAgree(a, v)
    requires forall c :: c in a.conversations ==>
      c in b.conversations && b.conversations[c].deleted == a.conversations[c].deleted
    requires Placed(a)
    ensures RowsAgree(b, v)
  {
  }

  lemma {:induction false} TombstoneAgrees(a: Db, b: Db, c: ConversationId, self: UserId, v: View)
    requires Placed(a) && Live(a, c) && b == TombstoneIn(a, c) && Agrees(a, self, v)
    ensures Agrees(b, self, Apply(self, v, ConversationDeleted(c, a.conversations[c].members.Keys)))
  {
    var e := ConversationDeleted(c, a.conversations[c].members.Keys);
    var u := Apply(self, v, e);
    forall d: nat
      ensures Get(u.conversations, d) == EntryOf(b, self, d) && Get(u.rows, d) == RowStep(self, Get(v.rows, d), e, d)
    {
      ApplyAt(self, v, e, d, d);
      assert Get(v.conversations, d) == EntryOf(a, self, d);
    }
    assert forall i :: RowOf(b, i) == RowOf(a, i);
    forall id | id in u.rows ensures id in v.rows && u.rows[id] == v.rows[id] { assert Get(u.rows, id).Some?; }
  }

  // ---------- Receipt fan-out ----------

  lemma Ignored(self: UserId, v: View, e: Event)
    requires e.ReceiptDelivered? || (e.ReceiptRead? && e.recipient != self)
    ensures Apply(self, v, e) == v
  {
  }

  lemma {:induction false} FanoutFold(self: UserId, v: View, order: seq<UserId>, c: ConversationId, u: UserId, s: nat,
      read: bool)
    ensures Fold(self, v, Fanout(order, c, u, s, read))
         == if read && self in order then Apply(self, v, ReceiptRead(c, u, s, self)) else v
    decreases |order|
  {
    var es := Fanout(order, c, u, s, read);
    if order != [] {
      assert es[1..] == Fanout(order[1..], c, u, s, read);
      FanoutFold(self, Apply(self, v, es[0]), order[1..], c, u, s, read);
      if read && order[0] == self {
        ApplyTwice(self, v, es[0]);
      } else {
        Ignored(self, v, es[0]);
      }
      assert order == [order[0]] + order[1..];
    }
  }

  lemma {:induction false} ReceiptEntry(a: Db, b: Db, u: UserId, c: ConversationId, s: nat, order: seq<UserId>,
      read: bool, self: UserId)
    requires TxReceipt(a, u, c, s, order, read) == Committed(b) && b != a
    ensures forall d :: d != c ==> EntryOf(b, self, d) == EntryOf(a, self, d)
    ensures EntryOf(b, self, c)
         == if read then ConversationStep(self, EntryOf(a, self, c), ReceiptRead(c, u, s, self), c)
           else EntryOf(a, self, c)
  {
    var members := a.conversations[c].members;
    assert ReadOf(b.conversations[c].members) == if read then ReadOf(members)[u := s] else ReadOf(members);
  }

  lemma {:induction false} ReceiptAgrees(a: Db, b: Db, u: UserId, c: ConversationId, s: nat, order: seq<UserId>,
      read: bool, self: UserId, v: View)
    requires read && c in a.conversations ==> Lists(order, a.conversations[c].members.Keys)
    requires TxReceipt(a, u, c, s, order, read) == Committed(b) && b != a
    requires Placed(a) && Agrees(a, self, v)
    ensures Agrees(b, self, Fold(self, v, Fanout(order, c, u, s, read)))
  {
    FanoutFold(self, v, order, c, u, s, read);
    assert self in order <==> self in (set w | w in order);
    var e := ReceiptRead(c, u, s, self);
    var w := if read && self in order then Apply(self, v, e) else v;
    ReceiptEntry(a, b, u, c, s, order, read, self);
    forall d: nat ensures Get(w.conversations, d) == EntryOf(b, self, d) && Get(w.rows, d) == Get(v.rows, d) {
      ApplyAt(self, v, e, d, d);
      assert Get(v.conversations, d) == EntryOf(a, self, d);
    }
    SameCells(w.rows, v.rows);
    RowsUntouched(a, b, v);
  }

  // ---------- Every run ----------

  lemma {:induction false} SendStep(a: Db, u: UserId, t: SenderType, data: SendData, pick: Choice, b: Db, self: UserId)
    requires Sound(a) && TxSend(a, u, t, data, pick) == Committed(b)
    requires Agrees(a, self, Fold(self, EMPTY, a.outbox))
    ensures Agrees(b, self, Fold(self, EMPTY, b.outbox))
  {
    SendInserts(a, u, t, data, pick, b);
    var m :| Inserted(a, b, m);
    InsertAgrees(a, b, m, self, Fold(self, EMPTY, a.outbox));
    FoldLast(self, EMPTY, a.outbox, MessageCreated(m));
  }

  /** One commit of the worker, seen through its new outbox rows. */
  lemma {:induction false} TransactAgrees(a: Db, cmd: Command, accepted: nat, pick: Choice, b: Db, self: UserId)
    requires Sound(a) && PickOk(a, cmd, pick) && Transact(a, cmd, accepted, pick) == Committed(b)
    requires Agrees(a, self, Fold(self, EMPTY, a.outbox))
    ensures Agrees(b, self, Fold(self, EMPTY, b.outbox))
  {
    var v := Fold(self, EMPTY, a.outbox);
    if b != a {
      match cmd
      case Send(actor, data) => SendStep(a, actor.value, UserSender, data, pick, b, self);
      case BotSend(botId, data) => SendStep(a, botId, BotSender, data, pick, b, self);
      case Edit(_, c, id, content) =>
        EditAgrees(a, b, c, id, content, self, v);
        FoldLast(self, EMPTY, a.outbox, MessageEdited(c, id, content));
      case Delete(_, c, id) =>
        DeleteAgrees(a, b, c, id, self, v);
        FoldLast(self, EMPTY, a.outbox, MessageDeleted(c, id));
      case AddReaction(actor, c, id, emoji) =>
        AddReactionAgrees(a, b, actor.value, c, id, emoji, self, v);
        FoldLast(self, EMPTY, a.outbox, ReactionAdded(c, id, Reaction(emoji, actor.value)));
      case RemoveReaction(actor, c, id, emoji) =>
        RemoveReactionAgrees(a, b, actor.value, c, id, emoji, self, v);
        FoldLast(self, EMPTY, a.outbox, ReactionRemoved(c, id, Reaction(emoji, actor.value)));
      case MarkRead(actor, c, _) =>
        ReceiptAgrees(a, b, actor.value, c, accepted, pick.order, true, self, v);
        FoldAppend(self, EMPTY, a.outbox, Fanout(pick.order, c, actor.value, accepted, true));
      case MarkDelivered(actor, c, _) =>
        ReceiptAgrees(a, b, actor.value, c, accepted, pick.order, false, self, v);
        FoldAppend(self, EMPTY, a.outbox, Fanout(pick.order, c, actor.value, accepted, false));
    }
  }

  lemma {:induction false} NextAgrees(w: World, s: Step, self: UserId)
    requires Inv(w) && Agrees(w.db, self, Fold(self, EMPTY, w.db.outbox))
    ensures var v := Next(w, s); Agrees(v.db, self, Fold(self, EMPTY, v.db.outbox))
  {
    var v := Next(w, s);
    var view := Fold(self, EMPTY, w.db.outbox);
    if v.db != w.db {
      match s
      case CreateConversation(c, members) =>
        CreateAgrees(w.db, v.db, c, members, self, view);
        FoldLast(self, EMPTY, w.db.outbox, ConversationCreated(c, members.Keys));
      case Tombstone(c) =>
        TombstoneAgrees(w.db, v.db, c, self, view);
        FoldLast(self, EMPTY, w.db.outbox, ConversationDeleted(c, w.db.conversations[c].members.Keys));
      case RunTransaction(t, pick) =>
        TransactAgrees(w.db, w.tasks[t].cmd, w.tasks[t].stage.accepted, pick, v.db, self);
    }
  }

  lemma {:induction false} RunAgrees(w: World, steps: seq<Step>, self: UserId)
    requires Inv(w) && Agrees(w.db, self, Fold(self, EMPTY, w.db.outbox))
    ensures var v := Run(w, steps); Agrees(v.db, self, Fold(self, EMPTY, v.db.outbox))
    decreases |steps|
  {
    if steps != [] {
      NextAgrees(w, steps[0], self);
      NextKeeps(w, steps[0]);
      RunAgrees(Next(w, steps[0]), steps[1..], self);
    }
  }

  /**
   The log is the state. After any run of the worker, a client of any user that applied the
   committed outbox once shows exactly the stored row of every message of a live
   conversation (content, edited and deleted flags, reaction set), no row that is not
   stored, and exactly the conversations listed for that user with their lastSequence and
   every member's read watermark.
   */
  lemma {:induction false} LogIsState(bots: map<UserId, bool>, steps: seq<Step>, self: UserId)
    ensures var db := Run(Initial(bots), steps).db; Agrees(db, self, Fold(self, EMPTY, db.outbox))
  {
    RunAgrees(Initial(bots), steps, self);
  }
}
