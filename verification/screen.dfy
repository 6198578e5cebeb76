/**
 From the database to the rendered transcript: the stream a client is fed satisfies what
 its reducers rely on, and once it is caught up every live conversation's list is the
 stored history, row by row and in order.
 */
module Screen {
  import opened Absorption
  import opened Domain
  import opened Replay
  import opened Transcript
  import opened WebClient
  import A = Authority
  import C = CrashReplay
  import D = Delivery
  import F = Failures
  import P = Projection

  function RegistryOf(db: A.Db): Registry {
    map id | id in db.messages :: Place(db.messages[id].conversationId, db.messages[id].sequence)
  }

  lemma RegistryConsistent(db: A.Db)
    requires D.SlotsUnique(db)
    ensures Consistent(RegistryOf(db))
  {
  }

  // ---------- Every event names its message's own conversation ----------

  ghost predicate OutboxPlaced(db: A.Db) {
    forall e | e in db.outbox :: EventPlaced(RegistryOf(db), e)
  }

  lemma PlacedStays(a: A.Db, b: A.Db, e: Event)
    requires D.Grows(a, b) && EventPlaced(RegistryOf(a), e)
    ensures EventPlaced(RegistryOf(b), e)
  {
  }

  lemma SendPlaced(a: A.Db, u: UserId, t: SenderType, data: A.SendData, pick: A.Choice, b: A.Db, e: Event)
    requires A.TxSend(a, u, t, data, pick) == A.Committed(b) && e in b.outbox && e !in a.outbox
    ensures EventPlaced(RegistryOf(b), e)
  {
  }

  /** Outside of sends, a new event is placed by what its check established. */
  lemma {:induction false} RowEventPlaced(a: A.Db, task: D.Task, pick: A.Choice, b: A.Db, e: Event)
    requires D.ReactionsPlaced(a) && D.StillValid(a, task) && task.stage.Checked? && !task.cmd.Send?
    requires !task.cmd.BotSend?
    requires A.Transact(a, task.cmd, task.stage.accepted, pick) == A.Committed(b)
    requires e in b.outbox && e !in a.outbox && Subject(e).Some?
    ensures EventPlaced(RegistryOf(a), e)
  {
    match task.cmd
    case Edit(_, c, id, content) => assert e == MessageEdited(c, id, content);
    case Delete(_, c, id) => assert e == MessageDeleted(c, id);
    case AddReaction(actor, c, id, emoji) => assert e == ReactionAdded(c, id, Reaction(emoji, actor.value));
    case RemoveReaction(actor, c, id, emoji) =>
      assert e == ReactionRemoved(c, id, Reaction(emoji, actor.value));
      assert A.InConversation(a, id, a.reactions[A.ReactionKey(id, e.reaction)]);
    case MarkRead(actor, c, _) => FanoutHasNoSubject(pick.order, c, actor.value, task.stage.accepted, true, e);
    case MarkDelivered(actor, c, _) => FanoutHasNoSubject(pick.order, c, actor.value, task.stage.accepted, false, e);
  }

  lemma FanoutHasNoSubject(order: seq<UserId>, c: ConversationId, u: UserId, s: nat, read: bool, e: Event)
    ensures e in A.Fanout(order, c, u, s, read) ==> Subject(e).None?
  {
  }

  lemma {:induction false} TransactPlaced(a: A.Db, task: D.Task, pick: A.Choice, b: A.Db, e: Event)
    requires D.ReactionsPlaced(a) && D.StillValid(a, task) && task.stage.Checked? && D.Grows(a, b)
    requires A.Transact(a, task.cmd, task.stage.accepted, pick) == A.Committed(b)
    requires e in b.outbox && e !in a.outbox
    ensures EventPlaced(RegistryOf(b), e)
  {
    match task.cmd
    case Send(actor, data) => SendPlaced(a, actor.value, UserSender, data, pick, b, e);
    case BotSend(botId, data) => SendPlaced(a, botId, BotSender, data, pick, b, e);
    case _ =>
      if Subject(e).Some? {
        RowEventPlaced(a, task, pick, b, e);
        PlacedStays(a, b, e);
      }
  }

  lemma {:induction false} NextPlaced(w: D.World, s: D.Step)
    requires D.Inv(w) && OutboxPlaced(w.db)
    ensures OutboxPlaced(D.Next(w, s).db)
  {
    var v := D.Next(w, s);
    D.NextGrows(w, s);
    forall e | e in v.db.outbox ensures EventPlaced(RegistryOf(v.db), e) {
      if e in w.db.outbox {
        PlacedStays(w.db, v.db, e);
      } else if s.RunTransaction? {
        TransactPlaced(w.db, w.tasks[s.task], s.pick, v.db, e);
      }
    }
  }

  lemma {:induction false} RunPlaced(w: D.World, steps: seq<D.Step>)
    requires D.Inv(w) && OutboxPlaced(w.db)
    ensures OutboxPlaced(D.Run(w, steps).db)
    decreases |steps|
  {
    if steps != [] {
      NextPlaced(w, steps[0]);
      D.NextKeeps(w, steps[0]);
      RunPlaced(D.Next(w, steps[0]), steps[1..]);
    }
  }

  /** Whatever the publisher carries, with any crashes, meets what the client's event handler requires. */
  lemma {:induction false} StreamPlaced(bots: map<UserId, bool>, steps: seq<D.Step>, ticks: seq<C.Tick>, e: Event)
    requires var log := D.Run(D.Initial(bots), steps).db.outbox;
      C.Visible(log, ticks) && e in C.Drain(log, C.Progress(0, 0, []), ticks).stream
    ensures var reg := RegistryOf(D.Run(D.Initial(bots), steps).db); Consistent(reg) && EventPlaced(reg, e)
  {
    D.RunKeeps(D.Initial(bots), steps);
    RunPlaced(D.Initial(bots), steps);
    var db := D.Run(D.Initial(bots), steps).db;
    RegistryConsistent(db);
    C.StreamFromLog(db.outbox, C.Progress(0, 0, []), ticks, e);
  }

  // ---------- The list is the history ----------

  predicate HasSequence(list: seq<ClientMessage>, k: int) {
    exists j :: 0 <= j < |list| && Sequence(list[j]) == k
  }

  lemma {:induction false} AtLeastPosition(list: seq<ClientMessage>, i: nat)
    requires StrictlySorted(list) && i < |list| && 1 <= Sequence(list[0])
    ensures i + 1 <= Sequence(list[i])
  {
    if i > 0 { AtLeastPosition(list, i - 1); }
  }

  lemma {:induction false} DensePosition(list: seq<ClientMessage>, n: nat, i: nat)
    requires StrictlySorted(list) && i < n
    requires forall j :: 0 <= j < |list| ==> 1 <= Sequence(list[j])
    requires forall k :: 1 <= k <= n ==> HasSequence(list, k)
    ensures i < |list| && Sequence(list[i]) == i + 1
    decreases i
  {
    assert HasSequence(list, i + 1);
    var j :| 0 <= j < |list| && Sequence(list[j]) == i + 1;
    AtLeastPosition(list, j);
    if j < i { DensePosition(list, n, j); }
  }

  /** A sorted list that holds every sequence of 1..n and no other holds each once, in its place. */
  lemma {:induction false} DenseList(list: seq<ClientMessage>, n: nat)
    requires StrictlySorted(list)
    requires forall j :: 0 <= j < |list| ==> 1 <= Sequence(list[j]) <= n
    requires forall k :: 1 <= k <= n ==> HasSequence(list, k)
    ensures |list| == n && forall i :: 0 <= i < n ==> Sequence(list[i]) == i + 1
  {
    forall i | 0 <= i < n ensures i < |list| && Sequence(list[i]) == i + 1 { DensePosition(list, n, i); }
    if list != [] { AtLeastPosition(list, |list| - 1); }
    if n > 0 { DensePosition(list, n, n - 1); }
  }

  ghost predicate ShowsHistory(db: A.Db, c: ConversationId, list: seq<ClientMessage>)
    requires c in db.conversations
  {
    && |list| == db.conversations[c].lastSequence
    && forall i | 0 <= i < |list| ::
         && Sequence(list[i]) == i + 1
         && Id(list[i]) in db.messages && list[i].message == db.messages[Id(list[i])]
         && (set r | r in list[i].reactions) == P.ReactionsOf(db, Id(list[i]))
  }

  /** Every row the view holds of conversation `c` is the stored one. */
  ghost predicate Current(db: A.Db, c: ConversationId, v: View) {
    forall id | A.InConversation(db, id, c) && id in v.rows ::
      v.rows[id] == RowView(db.messages[id], P.ReactionsOf(db, id))
  }

  /** The view holds every stored row of conversation `c`. */
  ghost predicate Loaded(db: A.Db, c: ConversationId, v: View) {
    forall id | A.InConversation(db, id, c) :: id in v.rows
  }

  ghost predicate StoredRow(db: A.Db, c: ConversationId, m: ClientMessage) {
    && A.InConversation(db, Id(m), c) && m.message == db.messages[Id(m)]
    && (set r | r in m.reactions) == P.ReactionsOf(db, Id(m))
  }

  lemma {:induction false} CachedAgrees(db: A.Db, v: View, cache: Cache, c: ConversationId, id: MessageId)
    requires Current(db, c, v) && A.InConversation(db, id, c) && id in v.rows
    requires Tidy(cache, RegistryOf(db)) && RowsShow(cache, RegistryOf(db), v.rows)
    ensures var row := Find(Cached(cache, c), id);
      row.Some? && row.value in Cached(cache, c) && Id(row.value) == id && StoredRow(db, c, row.value)
  {
    assert Get(v.rows, id) == Seen(Lookup(cache, RegistryOf(db), id));
    FindIsMember(Cached(cache, c), id);
  }

  /** Every cached row of a current conversation is the stored one. */
  lemma {:induction false} RowAgrees(db: A.Db, v: View, cache: Cache, c: ConversationId, i: nat)
    requires Current(db, c, v) && i < |Cached(cache, c)|
    requires Tidy(cache, RegistryOf(db)) && RowsShow(cache, RegistryOf(db), v.rows)
    ensures StoredRow(db, c, Cached(cache, c)[i])
  {
    var list := Cached(cache, c);
    var id := Id(list[i]);
    assert id in Slots(RegistryOf(db), c);
    OrderedDistinct(list, Slots(RegistryOf(db), c));
    FindIsMember(list, id);
    assert Get(v.rows, id) == Seen(Lookup(cache, RegistryOf(db), id));
    CachedAgrees(db, v, cache, c, id);
  }

  lemma {:induction false} TranscriptIsHistory(db: A.Db, v: View, cache: Cache, c: ConversationId)
    requires D.Sound(db) && c in db.conversations && Current(db, c, v) && Loaded(db, c, v)
    requires Tidy(cache, RegistryOf(db)) && RowsShow(cache, RegistryOf(db), v.rows)
    ensures ShowsHistory(db, c, Cached(cache, c))
  {
    var list := Cached(cache, c);
    var n := db.conversations[c].lastSequence;
    forall i | 0 <= i < |list| ensures StoredRow(db, c, list[i]) && 1 <= Sequence(list[i]) <= n {
      RowAgrees(db, v, cache, c, i);
    }
    forall k | 1 <= k <= n ensures HasSequence(list, k) { SequenceCached(db, v, cache, c, k); }
    DenseList(list, n);
  }

  lemma {:induction false} SequenceCached(db: A.Db, v: View, cache: Cache, c: ConversationId, k: nat)
    requires D.Dense(db) && c in db.conversations && 1 <= k <= db.conversations[c].lastSequence
    requires Current(db, c, v) && Loaded(db, c, v) && Tidy(cache, RegistryOf(db))
    requires RowsShow(cache, RegistryOf(db), v.rows)
    ensures HasSequence(Cached(cache, c), k)
  {
    assert A.SlotTaken(db, c, k);
    var id :| id in db.messages && db.messages[id].conversationId == c && db.messages[id].sequence == k;
    CachedAgrees(db, v, cache, c, id);
    var j :| 0 <= j < |Cached(cache, c)| && Cached(cache, c)[j] == Find(Cached(cache, c), id).value;
    assert Sequence(Cached(cache, c)[j]) == k;
  }

  // ---------- Rows read over REST and a stream that replays older events ----------

  /** The row of message `id` after the first `n` rows of the log. */
  function RowAt(self: UserId, log: seq<Event>, n: nat, id: MessageId): Option<RowView>
    requires n <= |log|
  {
    Get(Fold(self, EMPTY, log[..n]).rows, id)
  }

  lemma {:induction false} RowAtFold(self: UserId, log: seq<Event>, n: nat, id: MessageId)
    requires n <= |log|
    ensures RowAt(self, log, n, id) == FoldWith(RowStepper(self, id), None, log[..n])
  {
    RowOfFold(self, EMPTY, log[..n], id);
  }

  /**
   The barrier, row by row. A row read at `cut`, or known not to exist there, by a client whose
   publisher stands at `start`, at or before the cut: after the rest of the stream, crash
   duplicates included, it is what the log says.
   */
  lemma {:induction false} RowCatchesUp(self: UserId, log: seq<Event>, start: nat, cut: nat, ticks: seq<C.Tick>,
      id: MessageId, t: C.Progress)
    requires start <= cut <= |log| && C.Visible(log, ticks) && t == C.Drain(log, C.Progress(start, cut, []), ticks)
    requires t.p == |log|
    ensures FoldWith(RowStepper(self, id), RowAt(self, log, cut, id), t.stream) == RowAt(self, log, |log|, id)
  {
    var step, none: Option<RowView> := RowStepper(self, id), None;
    RowStepperLawful(self, id);
    C.SubscriptionCovers(step, none, log, cut, start);
    C.DrainCovers(step, none, log, C.Progress(start, cut, []), ticks, FoldWith(step, none, log[..cut]));
    RowAtFold(self, log, cut, id);
    RowAtFold(self, log, |log|, id);
    assert log[|log|..|log|] == [] && log[..|log|] == log;
  }

  /** A row that did not exist when the stream begins is brought in by the stream alone. */
  lemma {:induction false} NewRowCatchesUp(self: UserId, log: seq<Event>, start: nat, cut: nat, ticks: seq<C.Tick>,
      id: MessageId, t: C.Progress)
    requires start <= cut <= |log| && C.Visible(log, ticks) && t == C.Drain(log, C.Progress(start, cut, []), ticks)
    requires t.p == |log| && RowAt(self, log, start, id).None?
    ensures FoldWith(RowStepper(self, id), None, t.stream) == RowAt(self, log, |log|, id)
  {
    var u := C.Drain(log, C.Progress(start, start, []), ticks);
    C.SameStream(log, C.Progress(start, cut, []), C.Progress(start, start, []), ticks);
    RowCatchesUp(self, log, start, start, ticks, id, u);
  }

  lemma {:induction false} NothingCreated(self: UserId, es: seq<Event>, id: MessageId)
    requires forall e :: e in es ==> !(e.MessageCreated? && e.message.id == id)
    ensures FoldWith(RowStepper(self, id), None, es) == None
    decreases |es|
  {
    if es != [] {
      assert es[0] in es && RowStep(self, None, es[0], id) == None;
      NothingCreated(self, es[1..], id);
    }
  }

  /** A created row of a log is there, unless its conversation went; and it was created. */
  lemma {:induction false} RowFromCreation(self: UserId, log: seq<Event>, n: nat, id: MessageId)
    requires n <= |log| && RowAt(self, log, n, id).Some?
    ensures exists j :: D.CreatedAt(log[..n], j, id)
  {
    RowAtFold(self, log, n, id);
    if forall e :: e in log[..n] ==> !(e.MessageCreated? && e.message.id == id) {
      NothingCreated(self, log[..n], id);
    } else {
      var e :| e in log[..n] && e.MessageCreated? && e.message.id == id;
      var j :| 0 <= j < n && log[..n][j] == e;
      assert D.CreatedAt(log[..n], j, id);
    }
  }

  /** A row not loaded whose creation the stream does not carry stays out; one it carries is brought in whole. */
  lemma {:induction false} AbsentRow(self: UserId, log: seq<Event>, start: nat, cut: nat, ticks: seq<C.Tick>,
      id: MessageId, t: C.Progress)
    requires start <= cut <= |log| && C.Visible(log, ticks) && t == C.Drain(log, C.Progress(start, cut, []), ticks)
    requires t.p == |log| && forall i, j :: D.CreatedAt(log, i, id) && D.CreatedAt(log, j, id) ==> i == j
    ensures var row := FoldWith(RowStepper(self, id), None, t.stream);
      row.Some? ==> row == RowAt(self, log, |log|, id)
  {
    if RowAt(self, log, start, id).Some? {
      RowFromCreation(self, log, start, id);
      var i :| D.CreatedAt(log[..start], i, id);
      assert D.CreatedAt(log, i, id);
      forall e | e in t.stream ensures !(e.MessageCreated? && e.message.id == id) {
        C.StreamFrom(log, start, C.Progress(start, cut, []), ticks, e);
        var j :| start <= j < |log| && log[j] == e;
        assert !D.CreatedAt(log, j, id);
      }
      NothingCreated(self, t.stream, id);
    } else {
      NewRowCatchesUp(self, log, start, cut, ticks, id, t);
    }
  }

  // ---------- Rows put over what is cached ----------

  /** A client that has seen the first `p` rows of the log upserts the row of `id` as it was read at `cut`. */
  function Fetched(self: UserId, log: seq<Event>, p: nat, cut: nat, id: MessageId): View
    requires p <= |log| && cut <= |log| && RowAt(self, log, cut, id).Some?
  {
    var v := Fold(self, EMPTY, log[..p]);
    v.(rows := v.rows[id := RowAt(self, log, cut, id).value])
  }

  /** However the rest of the log reaches it, with any crashes, it ends with what the log says of that row. */
  ghost predicate FetchedRowServes(self: UserId, log: seq<Event>, p: nat, cut: nat, id: MessageId)
    requires p <= |log| && cut <= |log|
  {
    RowAt(self, log, cut, id).Some? ==>
      forall ticks | C.Visible(log, ticks) && C.Drain(log, C.Progress(p, p, []), ticks).p == |log| ::
        var stream := C.Drain(log, C.Progress(p, p, []), ticks).stream;
        Get(Fold(self, Fetched(self, log, p, cut, id), stream).rows, id) == RowAt(self, log, |log|, id)
  }

  lemma {:induction false} FreshRowServes(self: UserId, log: seq<Event>, p: nat, cut: nat, id: MessageId)
    requires p <= cut <= |log|
    ensures FetchedRowServes(self, log, p, cut, id)
  {
    if RowAt(self, log, cut, id).Some? {
      forall ticks | C.Visible(log, ticks) && C.Drain(log, C.Progress(p, p, []), ticks).p == |log|
        ensures var stream := C.Drain(log, C.Progress(p, p, []), ticks).stream;
          Get(Fold(self, Fetched(self, log, p, cut, id), stream).rows, id) == RowAt(self, log, |log|, id)
      {
        C.SameStream(log, C.Progress(p, p, []), C.Progress(p, cut, []), ticks);
        RowCatchesUp(self, log, p, cut, ticks, id, C.Drain(log, C.Progress(p, cut, []), ticks));
        RowOfFold(self, Fetched(self, log, p, cut, id), C.Drain(log, C.Progress(p, p, []), ticks).stream, id);
      }
    }
  }

  /** A creation, read; an edit between the read and the upsert; nothing after. */
  lemma {:induction false} StaleRowFails(self: UserId, n: nat, p: nat, cut: nat)
    requires 0 < cut < p <= n
    ensures exists log, id | |log| == n :: !FetchedRowServes(self, log, p, cut, id)
  {
    var created, edited := MessageCreated(F.FIRST), MessageEdited(0, F.FIRST.id, "second");
    var log, id := F.TwoAt(n, 0, created, cut, edited), F.FIRST.id;
    assert log[..cut] == F.TwoAt(cut, 0, created, 0, created);
    F.OneShown(self, EMPTY, cut, 0, created);
    ApplyAt(self, EMPTY, created, id, 0);
    assert log[..n] == log;
    F.TwoShown(self, n, 0, created, cut, edited);
    F.FoldTwo(self, created, edited);
    ApplyAt(self, Apply(self, EMPTY, created), edited, id, 0);
    var ticks := C.DrainRest(log, C.Progress(p, p, []));
    assert [] + log[p..] == F.Nothing(n - p);
    F.NothingShown(self, Fetched(self, log, p, cut, id), n - p);
    assert !FetchedRowServes(self, log, p, cut, id);
  }

  /**
   When a row fetched over REST and put over the cache is right, exactly: whatever the log says,
   and however the rest of it arrives, the screen ends with the stored row, if and only if the
   row was read at or after the position the client's stream had reached when it was upserted
   (or from an empty log, when there was no row to read).
   */
  lemma {:induction false} FetchedRowServesExactly(self: UserId, n: nat, p: nat, cut: nat)
    requires p <= n && cut <= n
    ensures (forall log, id | |log| == n :: FetchedRowServes(self, log, p, cut, id)) <==> p <= cut || cut == 0
  {
    if p <= cut || cut == 0 {
      forall log, id | |log| == n ensures FetchedRowServes(self, log, p, cut, id) {
        if p <= cut { FreshRowServes(self, log, p, cut, id); } else { assert log[..0] == []; }
      }
    } else {
      StaleRowFails(self, n, p, cut);
    }
  }

  /** What a client holds when it has installed the list and loaded any rows, all read at `cut`. */
  ghost predicate FromRest(cut: A.Db, self: UserId, v: View) {
    && v.conversations == C.ListSnapshot(cut, self)
    && forall id | id in v.rows ::
         id in cut.messages && P.Live(cut, cut.messages[id].conversationId)
         && v.rows[id] == RowView(cut.messages[id], P.ReactionsOf(cut, id))
  }

  /** Rows of a caught-up client: the stored ones, for every row it has; every row, if it had loaded all. */
  lemma {:induction false} RestRowsCatchUp(cut: A.Db, end: A.Db, self: UserId, start: nat, ticks: seq<C.Tick>,
      t: C.Progress, base: View, v: View, c: ConversationId)
    requires start <= |cut.outbox| && cut.outbox <= end.outbox && C.Visible(end.outbox, ticks)
    requires t == C.Drain(end.outbox, C.Progress(start, |cut.outbox|, []), ticks) && t.p == |end.outbox|
    requires P.Agrees(cut, self, Fold(self, EMPTY, cut.outbox)) && P.Agrees(end, self, Fold(self, EMPTY, end.outbox))
    requires D.Ledger(cut) && D.Ledger(end) && D.Grows(cut, end) && P.Live(end, c)
    requires FromRest(cut, self, base) && v == Fold(self, base, t.stream)
    ensures Current(end, c, v) && (Loaded(cut, c, base) ==> Loaded(end, c, v))
  {
    forall id | A.InConversation(end, id, c)
      ensures id in v.rows ==> v.rows[id] == RowView(end.messages[id], P.ReactionsOf(end, id))
      ensures Loaded(cut, c, base) ==> id in v.rows
    {
      RestRow(cut, end, self, start, ticks, t, base, v, id);
      if id in cut.messages { assert D.SameIdentity(cut.messages[id], end.messages[id]); }
    }
  }

  lemma {:induction false} RestRow(cut: A.Db, end: A.Db, self: UserId, start: nat, ticks: seq<C.Tick>, t: C.Progress,
      base: View, v: View, id: MessageId)
    requires start <= |cut.outbox| && cut.outbox <= end.outbox && C.Visible(end.outbox, ticks)
    requires t == C.Drain(end.outbox, C.Progress(start, |cut.outbox|, []), ticks) && t.p == |end.outbox|
    requires P.Agrees(cut, self, Fold(self, EMPTY, cut.outbox)) && P.Agrees(end, self, Fold(self, EMPTY, end.outbox))
    requires D.Ledger(cut) && D.Ledger(end) && FromRest(cut, self, base) && v == Fold(self, base, t.stream)
    requires id in end.messages && P.Live(end, end.messages[id].conversationId)
    ensures id in v.rows ==> v.rows[id] == RowView(end.messages[id], P.ReactionsOf(end, id))
    ensures id in base.rows || id !in cut.messages ==> id in v.rows
  {
    var log, n := end.outbox, |cut.outbox|;
    assert log[..n] == cut.outbox && log[..|log|] == log;
    RowOfFold(self, base, t.stream, id);
    assert RowAt(self, log, |log|, id) == P.RowOf(end, id);
    if id in base.rows {
      assert RowAt(self, log, n, id) == P.RowOf(cut, id);
      RowCatchesUp(self, log, start, n, ticks, id, t);
    } else {
      AbsentRow(self, log, start, n, ticks, id, t);
      if RowAt(self, log, start, id).Some? {
        RowFromCreation(self, log, start, id);
        var i :| D.CreatedAt(log[..start], i, id);
        assert D.CreatedAt(cut.outbox, i, id);
      } else {
        NewRowCatchesUp(self, log, start, n, ticks, id, t);
      }
    }
  }

  /**
   End to end. A client subscribes when the publisher stands at `start`, installs the list and
   merges any rows it fetched, all read at a cut after some run of the worker; the worker goes
   on, its outbox is drained with any crashes, and the stream, which may begin before the cut,
   is fed to the client's handler, which then represents the folded stream (WebClient.Client).
   Every cached row of a live conversation is the stored one: content, flags, reaction set. If
   all its rows at the cut had been fetched, or there were none, the list is the stored history,
   sequences 1..lastSequence in order. The sidebar entry has the stored lastSequence and
   watermarks.
   */
  lemma {:induction false} CaughtUpScreen(bots: map<UserId, bool>, before: seq<D.Step>, after: seq<D.Step>,
      start: nat, ticks: seq<C.Tick>, self: UserId, cut: A.Db, db: A.Db, base: View, v: View, cache: Cache,
      list: seq<Entry>, c: ConversationId)
    requires cut == D.Run(D.Initial(bots), before).db && db == D.Run(D.Initial(bots), before + after).db
    requires start <= |cut.outbox| <= |db.outbox| && C.Visible(db.outbox, ticks) && FromRest(cut, self, base)
    requires C.Drain(db.outbox, C.Progress(start, |cut.outbox|, []), ticks).p == |db.outbox|
    requires v == Fold(self, base, C.Drain(db.outbox, C.Progress(start, |cut.outbox|, []), ticks).stream)
    requires Tidy(cache, RegistryOf(db)) && RowsShow(cache, RegistryOf(db), v.rows) && ListShows(list, v.conversations)
    ensures P.Live(db, c) ==>
      && (forall i :: 0 <= i < |Cached(cache, c)| ==> StoredRow(db, c, Cached(cache, c)[i]))
      && (Loaded(cut, c, base) ==> ShowsHistory(db, c, Cached(cache, c)))
    ensures EntryShows(FindEntry(list, c), P.EntryOf(db, self, c))
  {
    RestRun(bots, before, after, cut, db, self);
    var t := C.Drain(db.outbox, C.Progress(start, |cut.outbox|, []), ticks);
    if P.Live(db, c) {
      RestRowsCatchUp(cut, db, self, start, ticks, t, base, v, c);
      forall i | 0 <= i < |Cached(cache, c)|
        ensures StoredRow(db, c, Cached(cache, c)[i])
      {
        RowAgrees(db, v, cache, c, i);
      }
      if Loaded(cut, c, base) { TranscriptIsHistory(db, v, cache, c); }
    }
    EntriesCatchUp(bots, before, after, self, start, ticks, cut, db, base, v);
    assert EntryShows(FindEntry(list, c), Get(v.conversations, c));
    assert Get(C.ListSnapshot(db, self), c) == P.EntryOf(db, self, c);
  }

  lemma {:induction false} EntriesCatchUp(bots: map<UserId, bool>, before: seq<D.Step>, after: seq<D.Step>,
      self: UserId, start: nat, ticks: seq<C.Tick>, cut: A.Db, db: A.Db, base: View, v: View)
    requires cut == D.Run(D.Initial(bots), before).db && db == D.Run(D.Initial(bots), before + after).db
    requires start <= |cut.outbox| <= |db.outbox| && C.Visible(db.outbox, ticks)
    requires base.conversations == C.ListSnapshot(cut, self)
    requires C.Drain(db.outbox, C.Progress(start, |cut.outbox|, []), ticks).p == |db.outbox|
    requires v == Fold(self, base, C.Drain(db.outbox, C.Progress(start, |cut.outbox|, []), ticks).stream)
    ensures v.conversations == C.ListSnapshot(db, self)
  {
    var a, b, t, w := C.BootstrapBarrier(bots, before, after, self, start, ticks, base.rows);
    assert base == View(base.rows, C.ListSnapshot(cut, self));
  }

  lemma {:induction false} RestRun(bots: map<UserId, bool>, before: seq<D.Step>, after: seq<D.Step>, cut: A.Db,
      db: A.Db, self: UserId)
    requires cut == D.Run(D.Initial(bots), before).db && db == D.Run(D.Initial(bots), before + after).db
    ensures D.Sound(db) && D.Ledger(cut) && D.Ledger(db) && D.Grows(cut, db)
    ensures P.Agrees(cut, self, Fold(self, EMPTY, cut.outbox)) && P.Agrees(db, self, Fold(self, EMPTY, db.outbox))
  {
    D.InitialInv(bots);
    D.RunKeeps(D.Initial(bots), before);
    D.RunSplit(D.Initial(bots), before, after);
    D.RunKeeps(D.Initial(bots), before + after);
    D.RunGrows(D.Run(D.Initial(bots), before), after);
    P.LogIsState(bots, before, self);
    P.LogIsState(bots, before + after, self);
  }
}
