/**
 Read and delivered receipts from the conditional update to the client's watermark, and
 the unread badge computed from it.
 */
module Receipts {
  import opened Domain
  import opened Authority
  import opened Delivery
  import Replay
  import Projection

  predicate IsReceipt(e: Event, read: bool) {
    if read then e.ReceiptRead? else e.ReceiptDelivered?
  }

  function Mark(e: Event): nat
    requires e.ReceiptRead? || e.ReceiptDelivered?
  {
    if e.ReceiptRead? then e.lastReadSequence else e.lastDeliveredSequence
  }

  function Receipt(c: ConversationId, u: UserId, s: nat, recipient: UserId, read: bool): Event {
    if read then ReceiptRead(c, u, s, recipient) else ReceiptDelivered(c, u, s, recipient)
  }

  /** The persisted high-water mark of one member. */
  function Watermark(db: Db, c: ConversationId, u: UserId, read: bool): nat
    requires IsMember(db, c, u)
  {
    var m := db.conversations[c].members[u];
    if read then m.lastRead else m.lastDelivered
  }

  predicate Addressed(db: Db, c: ConversationId, u: UserId, recipient: UserId, read: bool) {
    IsMember(db, c, recipient) && (read || recipient != u)
  }

  // ---------- What every run keeps ----------

  /** Per conversation, acting member and recipient, emitted values strictly increase along the log. */
  ghost predicate Rising(db: Db, read: bool) {
    forall i, j | 0 <= i < j < |db.outbox| && IsReceipt(db.outbox[i], read) && IsReceipt(db.outbox[j], read) ::
      var e, f := db.outbox[i], db.outbox[j];
      e.conversationId == f.conversationId && e.userId == f.userId && e.recipient == f.recipient ==> Mark(e) < Mark(f)
  }

  /** No emitted value exceeds the persisted watermark. */
  ghost predicate Persisted(db: Db, read: bool) {
    forall i | 0 <= i < |db.outbox| && IsReceipt(db.outbox[i], read) ::
      var e := db.outbox[i];
      IsMember(db, e.conversationId, e.userId) && Mark(e) <= Watermark(db, e.conversationId, e.userId, read)
  }

  /** The persisted watermark was announced to every recipient. */
  ghost predicate Announced(db: Db, read: bool) {
    forall c, u, r | IsMember(db, c, u) && Addressed(db, c, u, r, read) ::
      Watermark(db, c, u, read) > 0 ==> Receipt(c, u, Watermark(db, c, u, read), r, read) in db.outbox
  }

  ghost predicate Receipted(db: Db, read: bool) {
    Rising(db, read) && Persisted(db, read) && Announced(db, read)
  }

  /** A step that neither moves a watermark of this kind nor emits a receipt of it. */
  ghost predicate Silent(a: Db, b: Db, read: bool) {
    && a.outbox <= b.outbox
    && (forall i | |a.outbox| <= i < |b.outbox| :: !IsReceipt(b.outbox[i], read))
    && (forall c, u | IsMember(a, c, u) :: IsMember(b, c, u) && Watermark(b, c, u, read) == Watermark(a, c, u, read))
    && (forall c, u | IsMember(b, c, u) && Watermark(b, c, u, read) > 0 :: IsMember(a, c, u))
    && (forall c, u | c in a.conversations && IsMember(b, c, u) :: IsMember(a, c, u))
  }

  lemma SilentKeeps(a: Db, b: Db, read: bool)
    requires Receipted(a, read) && Silent(a, b, read)
    ensures Receipted(b, read)
  {
  }

  lemma ReceiptIsSilentForOther(a: Db, b: Db, u: UserId, c: ConversationId, s: nat, order: seq<UserId>, read: bool)
    requires TxReceipt(a, u, c, s, order, read) == Committed(b)
    ensures Silent(a, b, !read)
  {
  }

  lemma {:induction false} TransactSilent(a: Db, cmd: Command, accepted: nat, pick: Choice, b: Db, read: bool)
    requires Transact(a, cmd, accepted, pick) == Committed(b)
    requires !(if read then cmd.MarkRead? else cmd.MarkDelivered?)
    ensures Silent(a, b, read)
  {
    if cmd.MarkRead? {
      ReceiptIsSilentForOther(a, b, cmd.actor.value, cmd.conversationId, accepted, pick.order, true);
    } else if cmd.MarkDelivered? {
      ReceiptIsSilentForOther(a, b, cmd.actor.value, cmd.conversationId, accepted, pick.order, false);
    }
  }

  /** The conditional update that advanced: watermark raised, one row per recipient appended. */
  ghost predicate Advanced(a: Db, b: Db, c: ConversationId, u: UserId, s: nat, order: seq<UserId>, read: bool) {
    && IsMember(a, c, u) && Watermark(a, c, u, read) < s
    && b.conversations.Keys == a.conversations.Keys
    && (forall d, v :: IsMember(b, d, v) <==> IsMember(a, d, v))
    && Watermark(b, c, u, read) == s
    && (forall d, v | IsMember(a, d, v) && (d != c || v != u) :: Watermark(b, d, v, read) == Watermark(a, d, v, read))
    && b.outbox == a.outbox + Fanout(order, c, u, s, read)
    && (forall r :: r in order <==> Addressed(a, c, u, r, read))
    && (forall i, j :: 0 <= i < j < |order| ==> order[i] != order[j])
  }

  lemma {:induction false} ReceiptAdvanced(a: Db, b: Db, cmd: Command, accepted: nat, pick: Choice, u: UserId,
      read: bool)
    requires if read then cmd.MarkRead? else cmd.MarkDelivered?
    requires cmd.actor == Some(u) && PickOk(a, cmd, pick)
    requires Transact(a, cmd, accepted, pick) == Committed(b) && b != a
    ensures Advanced(a, b, cmd.conversationId, u, accepted, pick.order, read)
  {
    var listed := set r | r in pick.order;
    assert listed == Recipients(a, cmd);
    forall r ensures r in pick.order <==> Addressed(a, cmd.conversationId, u, r, read) {
      assert r in pick.order <==> r in listed;
    }
  }

  lemma AdvanceRising(a: Db, b: Db, c: ConversationId, u: UserId, s: nat, order: seq<UserId>, read: bool)
    requires Receipted(a, read) && Advanced(a, b, c, u, s, order, read)
    ensures Rising(b, read) && Persisted(b, read)
  {
  }

  lemma {:induction false} AdvanceAnnounced(a: Db, b: Db, c: ConversationId, u: UserId, s: nat, order: seq<UserId>,
      read: bool)
    requires Announced(a, read) && Advanced(a, b, c, u, s, order, read)
    ensures Announced(b, read)
  {
    forall d, v, r | IsMember(b, d, v) && Addressed(b, d, v, r, read) && Watermark(b, d, v, read) > 0
      ensures Receipt(d, v, Watermark(b, d, v, read), r, read) in b.outbox
    {
      assert IsMember(a, d, v) && Addressed(a, d, v, r, read);
      if d == c && v == u {
        var k :| 0 <= k < |order| && order[k] == r;
        assert b.outbox[|a.outbox| + k] == Receipt(c, u, s, r, read);
      } else {
        assert Receipt(d, v, Watermark(a, d, v, read), r, read) in a.outbox;
      }
    }
  }

  lemma {:induction false} TransactReceipted(a: Db, cmd: Command, accepted: nat, pick: Choice, b: Db, read: bool)
    requires Receipted(a, read) && PickOk(a, cmd, pick) && Transact(a, cmd, accepted, pick) == Committed(b)
    ensures Receipted(b, read)
  {
    if if read then cmd.MarkRead? else cmd.MarkDelivered? {
      if b != a {
        var u := cmd.actor.value;
        ReceiptAdvanced(a, b, cmd, accepted, pick, u, read);
        AdvanceRising(a, b, cmd.conversationId, u, accepted, pick.order, read);
        AdvanceAnnounced(a, b, cmd.conversationId, u, accepted, pick.order, read);
      }
    } else {
      TransactSilent(a, cmd, accepted, pick, b, read);
      SilentKeeps(a, b, read);
    }
  }

  lemma {:induction false} ApiSilent(a: Db, s: Step, b: Db, read: bool)
    requires s.CreateConversation? || s.Tombstone?
    requires b == if s.CreateConversation? then CreateIn(a, s.c, s.members) else TombstoneIn(a, s.c)
    ensures Silent(a, b, read)
  {
    var stored := b.conversations;
    forall c, u | IsMember(a, c, u) ensures IsMember(b, c, u) && stored[c].members[u] == a.conversations[c].members[u] {
    }
    forall c, u | IsMember(b, c, u) && c !in a.conversations ensures Watermark(b, c, u, read) == 0 {
    }
  }

  lemma {:induction false} NextReceipted(w: World, s: Step, read: bool)
    requires Receipted(w.db, read)
    ensures Receipted(Next(w, s).db, read)
  {
    var v := Next(w, s);
    if s.RunTransaction? {
      if v.db != w.db {
        TransactReceipted(w.db, w.tasks[s.task].cmd, w.tasks[s.task].stage.accepted, s.pick, v.db, read);
      }
    } else if s.CreateConversation? || s.Tombstone? {
      ApiSilent(w.db, s, v.db, read);
      SilentKeeps(w.db, v.db, read);
    }
  }

  lemma {:induction false} RunReceipted(w: World, steps: seq<Step>, read: bool)
    requires Receipted(w.db, read)
    ensures Receipted(Run(w, steps).db, read)
    decreases |steps|
  {
    if steps != [] {
      NextReceipted(w, steps[0], read);
      RunReceipted(Next(w, steps[0]), steps[1..], read);
    }
  }

  /**
   Receipt safety, with receipt transactions of several devices split between their read and
   their conditional update: watermarks never pass lastSequence and never regress; per
   acting member and recipient the emitted values strictly increase, none exceeds what is
   persisted, and what is persisted has been announced to every recipient.
   */
  lemma {:induction false} ReceiptSafety(bots: map<UserId, bool>, steps: seq<Step>, more: seq<Step>, read: bool)
    ensures var w := Run(Initial(bots), steps); var later := Run(w, more);
      && WatermarksBounded(w.db)
      && Rising(w.db, read) && Persisted(w.db, read) && Announced(w.db, read)
      && (forall c, u | IsMember(w.db, c, u) ::
            IsMember(later.db, c, u) && Watermark(w.db, c, u, read) <= Watermark(later.db, c, u, read))
  {
    var w := Run(Initial(bots), steps);
    InitialInv(bots);
    RunKeeps(Initial(bots), steps);
    RunReceipted(Initial(bots), steps, read);
    RunGrows(w, more);
    forall c, u | IsMember(w.db, c, u)
      ensures IsMember(Run(w, more).db, c, u) && Watermark(w.db, c, u, read) <= Watermark(Run(w, more).db, c, u, read)
    {
      WatermarkGrows(w.db, Run(w, more).db, c, u, read);
    }
  }

  lemma WatermarkGrows(a: Db, b: Db, c: ConversationId, u: UserId, read: bool)
    requires Grows(a, b) && IsMember(a, c, u)
    ensures IsMember(b, c, u) && Watermark(a, c, u, read) <= Watermark(b, c, u, read)
  {
  }

  // ---------- The client's watermark ----------

  datatype WatermarkMember = WatermarkMember(userId: UserId, lastReadSequence: nat)

  function RaiseMember(m: WatermarkMember, u: UserId, s: nat): WatermarkMember {
    if m.userId != u || s <= m.lastReadSequence then m else m.(lastReadSequence := s)
  }

  function RaiseMembers(members: seq<WatermarkMember>, u: UserId, s: nat): seq<WatermarkMember> {
    seq(|members|, i requires 0 <= i < |members| => RaiseMember(members[i], u, s))
  }

  /** advanceMemberWatermark: a new list when something advanced, None when nothing changed. */
  method AdvanceMemberWatermark(members: seq<WatermarkMember>, u: UserId,
      s: nat) returns (next: Option<seq<WatermarkMember>>)
    ensures next == if RaiseMembers(members, u, s) == members then None else Some(RaiseMembers(members, u, s))
  {
    var changed := false;
    var out: seq<WatermarkMember> := [];
    for i := 0 to |members|
      invariant out == RaiseMembers(members[..i], u, s)
      invariant changed <==> out != members[..i]
    {
      var m := members[i];
      if m.userId == u && s > m.lastReadSequence {
        changed := true;
        m := m.(lastReadSequence := s);
      }
      assert RaiseMembers(members[..i + 1], u, s) == out + [m];
      assert members[..i + 1] == members[..i] + [members[i]];
      out := out + [m];
    }
    assert members[..|members|] == members;
    return if changed then Some(out) else None;
  }

  /** The member list of conversation `c` at user `self` after a stretch of canonical events. */
  function ReceiveReceipts(members: seq<WatermarkMember>, self: UserId, c: ConversationId,
      es: seq<Event>): seq<WatermarkMember>
    decreases |es|
  {
    if es == [] then members
    else
      var front := ReceiveReceipts(members, self, c, es[..|es| - 1]);
      var e := es[|es| - 1];
      if e.ReceiptRead? && e.conversationId == c && e.recipient == self
      then RaiseMembers(front, e.userId, e.lastReadSequence) else front
  }

  predicate ReadFor(e: Event, self: UserId, c: ConversationId, u: UserId) {
    e.ReceiptRead? && e.conversationId == c && e.recipient == self && e.userId == u
  }

  /** The received watermark is the maximum of where it started and what was received. */
  lemma {:induction false} ReceivedMaximum(members: seq<WatermarkMember>, self: UserId, c: ConversationId,
      es: seq<Event>, i: nat)
    requires i < |members|
    ensures var r := ReceiveReceipts(members, self, c, es);
      && |r| == |members| && r[i].userId == members[i].userId && members[i].lastReadSequence <= r[i].lastReadSequence
      && (forall e | e in es && ReadFor(e, self, c, members[i].userId) :: e.lastReadSequence <= r[i].lastReadSequence)
      && (r[i] == members[i]
          || exists e :: e in es && ReadFor(e, self, c, members[i].userId)
               && e.lastReadSequence == r[i].lastReadSequence)
    decreases |es|
  {
    if es != [] {
      var front, last := es[..|es| - 1], es[|es| - 1];
      assert es == front + [last];
      ReceivedMaximum(members, self, c, front, i);
    }
  }

  /**
   Any-order convergence. A client whose member list started at or below the server (an empty
   list entry, a snapshot, its own optimistic echo of a persisted value) and that received
   each receipt addressed to it at least once, in any order and with any repetition, shows
   the server's read watermark for every member.
   */
  lemma {:induction false} AnyOrderConverges(bots: map<UserId, bool>, steps: seq<Step>, self: UserId, c: ConversationId,
                          members: seq<WatermarkMember>, received: seq<Event>, i: nat)
    requires var db := Run(Initial(bots), steps).db;
      && IsMember(db, c, self) && i < |members| && IsMember(db, c, members[i].userId)
      && members[i].lastReadSequence <= Watermark(db, c, members[i].userId, true)
      && (forall e | e in received && e.ReceiptRead? :: e in db.outbox)
      && (forall e | e in db.outbox && e.ReceiptRead? && e.conversationId == c && e.recipient == self :: e in received)
    ensures var db := Run(Initial(bots), steps).db;
      var r := ReceiveReceipts(members, self, c, received);
      |r| == |members| && r[i] == WatermarkMember(members[i].userId, Watermark(db, c, members[i].userId, true))
  {
    var db := Run(Initial(bots), steps).db;
    RunReceipted(Initial(bots), steps, true);
    ReceivedMaximum(members, self, c, received, i);
    var u := members[i].userId;
    var server := Watermark(db, c, u, true);
    if server > 0 {
      assert Addressed(db, c, u, self, true);
      assert ReadFor(Receipt(c, u, server, self, true), self, c, u);
    }
    forall e | e in received && ReadFor(e, self, c, u) ensures e.lastReadSequence <= server {
      var k :| 0 <= k < |db.outbox| && db.outbox[k] == e;
    }
  }

  // ---------- The unread badge ----------

  function Numbered(db: Db, c: ConversationId, lo: nat, hi: nat): set<MessageId> {
    set id | id in db.messages && db.messages[id].conversationId == c && lo < db.messages[id].sequence <= hi
  }

  lemma {:induction false} NumberedCount(db: Db, c: ConversationId, lo: nat, hi: nat)
    requires Dense(db) && SlotsUnique(db) && c in db.conversations && lo <= hi <= db.conversations[c].lastSequence
    ensures |Numbered(db, c, lo, hi)| == hi - lo
    decreases hi - lo
  {
    if lo == hi {
      assert Numbered(db, c, lo, hi) == {};
    } else {
      NumberedCount(db, c, lo, hi - 1);
      assert SlotTaken(db, c, hi);
      var top :| top in db.messages && db.messages[top].conversationId == c && db.messages[top].sequence == hi;
      assert Numbered(db, c, lo, hi) == Numbered(db, c, lo, hi - 1) + {top};
    }
  }

  /** Sidebar's unread count, from the list entry alone. */
  function Badge(entry: Replay.ConversationView, self: UserId): int {
    Max(0, entry.lastSequence - (if self in entry.read then entry.read[self] else 0))
  }

  function Unseen(rows: map<MessageId, Replay.RowView>, c: ConversationId, watermark: nat): set<MessageId> {
    set id | id in rows && rows[id].message.conversationId == c && rows[id].message.sequence > watermark
  }

  /**
   The unread badge, from database to screen: in every reachable state it is the number of the
   conversation's messages past this member's watermark, in the database and among the rows
   a caught-up client holds.
   */
  lemma {:induction false} UnreadBadge(bots: map<UserId, bool>, steps: seq<Step>, c: ConversationId, self: UserId)
    requires var db := Run(Initial(bots), steps).db; IsMember(db, c, self) && !db.conversations[c].deleted
    ensures var db := Run(Initial(bots), steps).db;
      var v := Replay.Fold(self, Replay.EMPTY, db.outbox);
      var mine := Watermark(db, c, self, true);
      && c in v.conversations
      && Badge(v.conversations[c], self) == |Numbered(db, c, mine, db.conversations[c].lastSequence)|
      && Numbered(db, c, mine, db.conversations[c].lastSequence) == Unseen(v.rows, c, mine)
  {
    var db := Run(Initial(bots), steps).db;
    var v := Replay.Fold(self, Replay.EMPTY, db.outbox);
    RunKeeps(Initial(bots), steps);
    Projection.LogIsState(bots, steps, self);
    BadgeCounts(db, v, c, self);
  }

  lemma {:induction false} BadgeCounts(db: Db, v: Replay.View, c: ConversationId, self: UserId)
    requires Sound(db) && Projection.Agrees(db, self, v) && IsMember(db, c, self) && !db.conversations[c].deleted
    ensures var mine := Watermark(db, c, self, true);
      && c in v.conversations
      && Badge(v.conversations[c], self) == |Numbered(db, c, mine, db.conversations[c].lastSequence)|
      && Numbered(db, c, mine, db.conversations[c].lastSequence) == Unseen(v.rows, c, mine)
  {
    var mine := Watermark(db, c, self, true);
    assert Replay.Get(v.conversations, c) == Projection.EntryOf(db, self, c);
    NumberedCount(db, c, mine, db.conversations[c].lastSequence);
    forall id ensures id in Numbered(db, c, mine, db.conversations[c].lastSequence) <==> id in Unseen(v.rows, c, mine) {
      if id in db.messages && db.messages[id].conversationId == c {
        assert Replay.Get(v.rows, id) == Projection.RowOf(db, id);
      }
    }
  }
}
