/**
 What a stream of canonical events means to one web client, and that its projection obeys
 the law under which replays are harmless.
 */
module Replay {
  import opened Absorption
  import opened Domain

  /** A cached message row; the reaction list of the store is seen as a set. */
  datatype RowView = RowView(message: Message, reactions: set<Reaction>)

  /** The list entry of a conversation: its sequence and its members' read watermarks. */
  datatype ConversationView = ConversationView(lastSequence: nat, read: map<UserId, nat>)

  datatype View = View(
    rows: map<MessageId, RowView>,
    conversations: map<ConversationId, ConversationView>)

  const EMPTY := View(map[], map[])

  /** A deleted conversation is dropped unless the event names members and this client is not one. */
  predicate Leaves(self: UserId, members: set<UserId>) {
    members == {} || self in members
  }

  /** Effect of one event on the row of message `id`, from no row or a row. */
  function RowStep(self: UserId, row: Option<RowView>, e: Event, id: MessageId): Option<RowView> {
    match e
    case ConversationDeleted(c, members) =>
      if row.Some? && row.value.message.conversationId == c && Leaves(self, members) then None else row
    case MessageCreated(m) => if m.id == id then Some(RowView(m, {})) else row
    case MessageEdited(_, target, content) =>
      if target == id && row.Some?
      then Some(row.value.(message := row.value.message.(content := content, edited := true)))
      else row
    case MessageDeleted(_, target) =>
      if target == id && row.Some?
      then Some(row.value.(message := row.value.message.(content := "", deleted := true)))
      else row
    case ReactionAdded(_, target, r) =>
      if target == id && row.Some? then Some(row.value.(reactions := row.value.reactions + {r})) else row
    case ReactionRemoved(_, target, r) =>
      if target == id && row.Some? then Some(row.value.(reactions := row.value.reactions - {r})) else row
    case _ => row
  }

  function AllUnread(members: set<UserId>): map<UserId, nat> {
    map w | w in members :: 0
  }

  /** Effect of one event on the list entry of conversation `c` at the client of user `self`. */
  function ConversationStep(self: UserId, entry: Option<ConversationView>, e: Event, c: ConversationId)
    : Option<ConversationView>
  {
    match e
    case ConversationCreated(id, members) =>
      if id == c && self in members then Some(ConversationView(0, AllUnread(members))) else entry
    case ConversationDeleted(id, members) => if id == c && Leaves(self, members) then None else entry
    case MessageCreated(m) =>
      if m.conversationId == c && entry.Some?
      then Some(entry.value.(lastSequence := Max(entry.value.lastSequence, m.sequence)))
      else entry
    case ReceiptRead(id, reader, sequence, recipient) =>
      if id == c && recipient == self && entry.Some?
      then Some(entry.value.(read := Raise(entry.value.read, reader, sequence)))
      else entry
    case _ => entry
  }

  function Get<K, V>(m: map<K, V>, k: K): Option<V> {
    if k in m then Some(m[k]) else None
  }

  function Put<K, V>(m: map<K, V>, k: K, v: Option<V>): map<K, V> {
    match v
    case None => m - {k}
    case Some(x) => m[k := x]
  }

  /** The message an event is about, and the conversation it is about. */
  function Subject(e: Event): Option<MessageId> {
    match e
    case MessageCreated(m) => Some(m.id)
    case MessageEdited(_, id, _) => Some(id)
    case MessageDeleted(_, id) => Some(id)
    case ReactionAdded(_, id, _) => Some(id)
    case ReactionRemoved(_, id, _) => Some(id)
    case _ => None
  }

  function Home(e: Event): ConversationId {
    if e.MessageCreated? then e.message.conversationId else e.conversationId
  }

  /** One event at the client of `self`: one row changes, or a whole conversation's rows go. */
  function Apply(self: UserId, v: View, e: Event): View {
    var rows :=
      match Subject(e)
      case None => map id | id in v.rows && RowStep(self, Some(v.rows[id]), e, id).Some? :: v.rows[id]
      case Some(id) => Put(v.rows, id, RowStep(self, Get(v.rows, id), e, id));
    var c := Home(e);
    View(rows, Put(v.conversations, c, ConversationStep(self, Get(v.conversations, c), e, c)))
  }

  function Stepper(self: UserId): (View, Event) -> View {
    (v: View, e: Event) => Apply(self, v, e)
  }

  function Fold(self: UserId, v: View, es: seq<Event>): View {
    FoldWith(Stepper(self), v, es)
  }

  // ---------- The replay law for one cell ----------

  function Toggle(s: set<Reaction>, r: Reaction, present: bool): set<Reaction> {
    if present then s + {r} else s - {r}
  }

  lemma {:induction false} ToggleLaw(x: set<Reaction>, y: set<Reaction>, f: Reaction, fPresent: bool, e: Reaction,
      ePresent: bool)
    requires Toggle(x, e, ePresent) == Toggle(y, e, ePresent)
    ensures Toggle(Toggle(x, f, fPresent), e, ePresent) == Toggle(Toggle(y, f, fPresent), e, ePresent)
  {
    forall r
      ensures r in Toggle(Toggle(x, f, fPresent), e, ePresent) <==> r in Toggle(Toggle(y, f, fPresent), e, ePresent)
    {
      assert r in Toggle(x, e, ePresent) <==> r in Toggle(y, e, ePresent);
    }
  }

  lemma {:induction false} RowLaw(self: UserId, x: Option<RowView>, y: Option<RowView>, f: Event, e: Event,
      id: MessageId)
    requires RowStep(self, x, e, id) == RowStep(self, y, e, id)
    ensures RowStep(self, RowStep(self, x, f, id), e, id) == RowStep(self, RowStep(self, y, f, id), e, id)
  {
    if x.Some? && y.Some? && (e.ReactionAdded? || e.ReactionRemoved?) && (f.ReactionAdded? || f.ReactionRemoved?) {
      if e.messageId == id {
        ToggleLaw(x.value.reactions, y.value.reactions, f.reaction, f.ReactionAdded?, e.reaction, e.ReactionAdded?);
      }
    }
  }

  function Raise(read: map<UserId, nat>, w: UserId, sequence: nat): map<UserId, nat> {
    if w in read then read[w := Max(read[w], sequence)] else read
  }

  lemma {:induction false} RaiseLaw(x: map<UserId, nat>, y: map<UserId, nat>, w: UserId, s: nat, v: UserId, t: nat)
    requires Raise(x, v, t) == Raise(y, v, t)
    ensures Raise(Raise(x, w, s), v, t) == Raise(Raise(y, w, s), v, t)
  {
    var p, q := Raise(Raise(x, w, s), v, t), Raise(Raise(y, w, s), v, t);
    assert x.Keys == Raise(x, v, t).Keys == y.Keys;
    forall u | u in x ensures p[u] == q[u] {
      assert Raise(x, v, t)[u] == Raise(y, v, t)[u];
    }
  }

  lemma {:induction false} ConversationLaw(self: UserId, x: Option<ConversationView>, y: Option<ConversationView>,
                        f: Event, e: Event, c: ConversationId)
    requires ConversationStep(self, x, e, c) == ConversationStep(self, y, e, c)
    ensures ConversationStep(self, ConversationStep(self, x, f, c), e, c)
         == ConversationStep(self, ConversationStep(self, y, f, c), e, c)
  {
    if x.Some? && y.Some? && e.ReceiptRead? && f.ReceiptRead? && e.conversationId == c && e.recipient == self {
      RaiseLaw(x.value.read, y.value.read, f.userId, f.lastReadSequence, e.userId, e.lastReadSequence);
    }
  }

  // ---------- The law for the whole projection ----------

  lemma ApplyAt(self: UserId, v: View, e: Event, id: MessageId, c: ConversationId)
    ensures Get(Apply(self, v, e).rows, id) == RowStep(self, Get(v.rows, id), e, id)
    ensures Get(Apply(self, v, e).conversations, c) == ConversationStep(self, Get(v.conversations, c), e, c)
  {
  }

  lemma {:induction false} SameCells<K, V>(x: map<K, V>, y: map<K, V>)
    requires forall k :: Get(x, k) == Get(y, k)
    ensures x == y
  {
    forall k ensures k in x <==> k in y { assert Get(x, k) == Get(y, k); }
    forall k | k in x ensures x[k] == y[k] { assert Get(x, k) == Get(y, k); }
  }

  /** e . f . e == e . f, in relational form: agreeing up to `e` survives any other event. */
  lemma {:induction false} ApplyLaw(self: UserId, x: View, y: View, f: Event, e: Event)
    requires Apply(self, x, e) == Apply(self, y, e)
    ensures Apply(self, Apply(self, x, f), e) == Apply(self, Apply(self, y, f), e)
  {
    var p, q := Apply(self, Apply(self, x, f), e), Apply(self, Apply(self, y, f), e);
    forall k: nat ensures Get(p.rows, k) == Get(q.rows, k) && Get(p.conversations, k) == Get(q.conversations, k) {
      ApplyAt(self, x, e, k, k); ApplyAt(self, y, e, k, k);
      ApplyAt(self, x, f, k, k); ApplyAt(self, y, f, k, k);
      ApplyAt(self, Apply(self, x, f), e, k, k); ApplyAt(self, Apply(self, y, f), e, k, k);
      RowLaw(self, Get(x.rows, k), Get(y.rows, k), f, e, k);
      ConversationLaw(self, Get(x.conversations, k), Get(y.conversations, k), f, e, k);
    }
    SameCells(p.rows, q.rows);
    SameCells(p.conversations, q.conversations);
  }

  lemma {:induction false} CellsTwice(self: UserId, row: Option<RowView>, entry: Option<ConversationView>, e: Event,
      k: nat)
    ensures RowStep(self, RowStep(self, row, e, k), e, k) == RowStep(self, row, e, k)
    ensures ConversationStep(self, ConversationStep(self, entry, e, k), e, k) == ConversationStep(self, entry, e, k)
  {
    if e.ReactionAdded? && row.Some? {
      assert row.value.reactions + {e.reaction} + {e.reaction} == row.value.reactions + {e.reaction};
    } else if e.ReactionRemoved? && row.Some? {
      assert row.value.reactions - {e.reaction} - {e.reaction} == row.value.reactions - {e.reaction};
    } else if e.ReceiptRead? && entry.Some? {
      var read := entry.value.read;
      var once := Raise(read, e.userId, e.lastReadSequence);
      assert Raise(once, e.userId, e.lastReadSequence) == once;
    }
  }

  lemma {:induction false} ApplyTwice(self: UserId, v: View, e: Event)
    ensures Apply(self, Apply(self, v, e), e) == Apply(self, v, e)
  {
    var p, q := Apply(self, Apply(self, v, e), e), Apply(self, v, e);
    forall k: nat ensures Get(p.rows, k) == Get(q.rows, k) && Get(p.conversations, k) == Get(q.conversations, k) {
      ApplyAt(self, v, e, k, k); ApplyAt(self, q, e, k, k);
      CellsTwice(self, Get(v.rows, k), Get(v.conversations, k), e, k);
    }
    SameCells(p.rows, q.rows);
    SameCells(p.conversations, q.conversations);
  }

  lemma {:induction false} StepperLawful(self: UserId)
    ensures Lawful(Stepper(self))
  {
    var step := Stepper(self);
    forall x, y, f, e | step(x, e) == step(y, e) ensures step(step(x, f), e) == step(step(y, f), e) {
      ApplyLaw(self, x, y, f, e);
    }
    forall x, e ensures step(step(x, e), e) == step(x, e) {
      ApplyTwice(self, x, e);
    }
  }

  // ---------- One row of the projection ----------

  function RowStepper(self: UserId, id: MessageId): (Option<RowView>, Event) -> Option<RowView> {
    (row: Option<RowView>, e: Event) => RowStep(self, row, e, id)
  }

  lemma {:induction false} RowStepperLawful(self: UserId, id: MessageId)
    ensures Lawful(RowStepper(self, id))
  {
    var step := RowStepper(self, id);
    forall x, y, f, e | step(x, e) == step(y, e) ensures step(step(x, f), e) == step(step(y, f), e) {
      RowLaw(self, x, y, f, e, id);
    }
    forall x, e ensures step(step(x, e), e) == step(x, e) { CellsTwice(self, x, None, e, id); }
  }

  /** Every row of a view is folded by itself. */
  lemma {:induction false} RowOfFold(self: UserId, v: View, es: seq<Event>, id: MessageId)
    ensures Get(Fold(self, v, es).rows, id) == FoldWith(RowStepper(self, id), Get(v.rows, id), es)
    decreases |es|
  {
    if es != [] {
      ApplyAt(self, v, es[0], id, 0);
      RowOfFold(self, Apply(self, v, es[0]), es[1..], id);
    }
  }

  lemma {:induction false} FoldAppend(self: UserId, v: View, a: seq<Event>, b: seq<Event>)
    ensures Fold(self, v, a + b) == Fold(self, Fold(self, v, a), b)
  {
    FoldWithAppend(Stepper(self), v, a, b);
  }

  lemma {:induction false} FoldLast(self: UserId, v: View, a: seq<Event>, e: Event)
    ensures Fold(self, v, a + [e]) == Apply(self, Fold(self, v, a), e)
  {
    FoldWithLast(Stepper(self), v, a, e);
  }
}
