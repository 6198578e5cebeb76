/**
 The mobile reducers. They ignore a redelivered message.created, keep a deleted message's
 content and preserve activity on conversation.created, so replays act on them differently
 than on the web store: the replay law holds only once a row or an entry exists. Streams of
 a crashing publisher never mention a row before its creation, and that is enough.
 */
module Mobile {
  import opened Absorption
  import opened CrashReplay
  import opened Domain
  import opened Replay
  import opened Transcript
  import A = Authority
  import D = Delivery
  import P = Projection

  // ---------- Reducers ----------

  /** One event on a row that exists. */
  function RowChange(row: RowView, e: Event, id: MessageId): RowView {
    match e
    case MessageEdited(_, target, content) =>
      if target == id then row.(message := row.message.(content := content, edited := true)) else row
    case MessageDeleted(_, target) => if target == id then row.(message := row.message.(deleted := true)) else row
    case ReactionAdded(_, target, r) => if target == id then row.(reactions := row.reactions + {r}) else row
    case ReactionRemoved(_, target, r) => if target == id then row.(reactions := row.reactions - {r}) else row
    case _ => row
  }

  predicate Creates(e: Event, id: MessageId) {
    e.MessageCreated? && e.message.id == id
  }

  /** The first message.created brings the row in, later ones are ignored. */
  function RowNext(row: Option<RowView>, e: Event, id: MessageId): Option<RowView> {
    if row.Some? then Some(RowChange(row.value, e, id))
    else if Creates(e, id) then Some(RowView(e.message, {})) else None
  }

  function RowNexter(id: MessageId): (Option<RowView>, Event) -> Option<RowView> {
    (row: Option<RowView>, e: Event) => RowNext(row, e, id)
  }

  /** One event on a list entry that exists; upsertPreservingActivity keeps its sequence. */
  function EntryChange(entry: ConversationView, e: Event, self: UserId, c: ConversationId): ConversationView {
    match e
    case ConversationCreated(id, members) =>
      if id == c && self in members then entry.(read := AllUnread(members)) else entry
    case MessageCreated(m) =>
      if m.conversationId == c then entry.(lastSequence := Max(entry.lastSequence, m.sequence)) else entry
    case ReceiptRead(id, reader, s, recipient) =>
      if id == c && recipient == self then entry.(read := Raise(entry.read, reader, s)) else entry
    case _ => entry
  }

  predicate Opens(e: Event, self: UserId, c: ConversationId) {
    e.ConversationCreated? && e.conversationId == c && self in e.members
  }

  predicate Closes(e: Event, self: UserId, c: ConversationId) {
    e.ConversationDeleted? && e.conversationId == c && Leaves(self, e.members)
  }

  function EntryNext(entry: Option<ConversationView>, e: Event, self: UserId,
      c: ConversationId): Option<ConversationView> {
    if Closes(e, self, c) then None
    else if entry.Some? then Some(EntryChange(entry.value, e, self, c))
    else if Opens(e, self, c) then Some(ConversationView(0, AllUnread(e.members))) else None
  }

  function EntryNexter(self: UserId, c: ConversationId): (Option<ConversationView>, Event) -> Option<ConversationView> {
    (entry: Option<ConversationView>, e: Event) => EntryNext(entry, e, self, c)
  }

  /** The mobile transcript keeps a cached row on message.created, which is how an older page is merged. */
  lemma {:induction false} CreatedIsPrepend(list: seq<ClientMessage>, m: ClientMessage, slots: map<MessageId, nat>)
    requires Ordered(list, slots)
    ensures Prepend(list, [m]) == if HasId(list, Id(m)) then list else SortMessages(list + [m])
  {
    assert [m][1..] == [] && Unknown(list, []) == [];
    if HasId(list, Id(m)) {
      assert list + [] == list;
      SortedStays(list);
    }
  }

  lemma {:induction false} SortedStays(list: seq<ClientMessage>)
    requires StrictlySorted(list)
    ensures SortMessages(list) == list
    decreases |list|
  {
    if list != [] {
      var n := |list| - 1;
      SortedStays(list[..n]);
      InsertLast(list[..n], list[n]);
    }
  }

  lemma {:induction false} InsertLast(list: seq<ClientMessage>, m: ClientMessage)
    requires forall x :: x in list ==> Sequence(x) <= Sequence(m)
    ensures Insert(list, m) == list + [m]
  {
    if list != [] {
      assert list == [list[0]] + list[1..];
      InsertLast(list[1..], m);
    }
  }

  // ---------- The law on what exists ----------

  function Changer(id: MessageId): (RowView, Event) -> RowView {
    (row: RowView, e: Event) => RowChange(row, e, id)
  }

  function EntryChanger(self: UserId, c: ConversationId): (ConversationView, Event) -> ConversationView {
    (entry: ConversationView, e: Event) => EntryChange(entry, e, self, c)
  }

  lemma {:induction false} ChangeLaw(x: RowView, y: RowView, f: Event, e: Event, id: MessageId)
    requires RowChange(x, e, id) == RowChange(y, e, id)
    ensures RowChange(RowChange(x, f, id), e, id) == RowChange(RowChange(y, f, id), e, id)
  {
    if (e.ReactionAdded? || e.ReactionRemoved?) && (f.ReactionAdded? || f.ReactionRemoved?) && e.messageId == id {
      ToggleLaw(x.reactions, y.reactions, f.reaction, f.ReactionAdded?, e.reaction, e.ReactionAdded?);
    }
  }

  lemma {:induction false} ChangeTwice(x: RowView, e: Event, id: MessageId)
    ensures RowChange(RowChange(x, e, id), e, id) == RowChange(x, e, id)
  {
    if e.ReactionAdded? {
      assert x.reactions + {e.reaction} + {e.reaction} == x.reactions + {e.reaction};
    } else if e.ReactionRemoved? {
      assert x.reactions - {e.reaction} - {e.reaction} == x.reactions - {e.reaction};
    }
  }

  lemma {:induction false} ChangerLawful(id: MessageId)
    ensures Lawful(Changer(id))
  {
    var step := Changer(id);
    forall x, y, f, e | step(x, e) == step(y, e) ensures step(step(x, f), e) == step(step(y, f), e) {
      ChangeLaw(x, y, f, e, id);
    }
    forall x, e ensures step(step(x, e), e) == step(x, e) { ChangeTwice(x, e, id); }
  }

  lemma {:induction false} EntryChangeLaw(x: ConversationView, y: ConversationView, f: Event, e: Event, self: UserId,
      c: ConversationId)
    requires EntryChange(x, e, self, c) == EntryChange(y, e, self, c)
    ensures EntryChange(EntryChange(x, f, self, c), e, self, c) == EntryChange(EntryChange(y, f, self, c), e, self, c)
  {
    if e.ReceiptRead? && f.ReceiptRead? && e.conversationId == c && e.recipient == self {
      RaiseLaw(x.read, y.read, f.userId, f.lastReadSequence, e.userId, e.lastReadSequence);
    }
  }

  lemma {:induction false} EntryChangerLawful(self: UserId, c: ConversationId)
    ensures Lawful(EntryChanger(self, c))
  {
    var step := EntryChanger(self, c);
    forall x, y, f, e | step(x, e) == step(y, e) ensures step(step(x, f), e) == step(step(y, f), e) {
      EntryChangeLaw(x, y, f, e, self, c);
    }
    forall x, e ensures step(step(x, e), e) == step(x, e) {
      if e.ReceiptRead? {
        var once := Raise(x.read, e.userId, e.lastReadSequence);
        assert Raise(once, e.userId, e.lastReadSequence) == once;
      }
    }
  }

  // ---------- Projections that begin with one event ----------

  /** Events `about` something follow the event that brings it in. */
  ghost predicate Causal(es: seq<Event>, about: Event -> bool, first: Event) {
    forall j :: 0 <= j < |es| && about(es[j]) ==> first in es[..j + 1]
  }

  /**
   On these events the optional projection `next` is: nothing until `first` brings in `x0`, then
   `change`, which minds only events `about` it and leaves `x0` alone on `first`.
   */
  ghost predicate Begins<S(!new)>(es: seq<Event>, next: (Option<S>, Event) -> Option<S>, change: (S, Event) -> S,
                                  about: Event -> bool, first: Event, x0: S) {
    && change(x0, first) == x0
    && forall e | e in es ::
         && (forall x :: next(Some(x), e) == Some(change(x, e)))
         && next(None, e) == (if e == first then Some(x0) else None)
         && (!about(e) ==> forall x :: change(x, e) == x)
  }

  lemma {:induction false} Untouched<S(!new)>(es: seq<Event>, next: (Option<S>, Event) -> Option<S>,
      change: (S, Event) -> S,
                                              about: Event -> bool, first: Event, x0: S)
    requires Begins(es, next, change, about, first, x0) && forall e :: e in es ==> !about(e)
    ensures FoldWith(change, x0, es) == x0
    decreases |es|
  {
    if es != [] {
      assert es[0] in es && change(x0, es[0]) == x0;
      Untouched(es[1..], next, change, about, first, x0);
    }
  }

  lemma {:induction false} CausalPrefix(es: seq<Event>, n: nat, about: Event -> bool, first: Event)
    requires Causal(es, about, first) && n <= |es|
    ensures Causal(es[..n], about, first)
  {
    forall j | 0 <= j < n && about(es[..n][j])
      ensures first in es[..n][..j + 1]
    {
      assert es[..n][..j + 1] == es[..j + 1];
    }
  }

  lemma PrefixMember(es: seq<Event>, n: nat, e: Event)
    requires n <= |es|
    ensures e in es[..n] ==> e in es
  {
  }

  /** Before the first event there is nothing `about` it. */
  lemma {:induction false} NothingBefore(es: seq<Event>, about: Event -> bool, first: Event)
    requires Causal(es, about, first) && first !in es
    ensures forall e :: e in es ==> !about(e)
  {
    forall j | 0 <= j < |es| ensures !about(es[j]) { PrefixMember(es, j + 1, first); }
  }

  /** Where `first` comes first, the optional projection is the fold of changes over `x0`. */
  lemma {:induction false} BegunIsFold<S(!new)>(es: seq<Event>, next: (Option<S>, Event) -> Option<S>,
      change: (S, Event) -> S,
                                                about: Event -> bool, first: Event, x0: S)
    requires Begins(es, next, change, about, first, x0) && Causal(es, about, first)
    ensures FoldWith(next, None, es) == if first in es then Some(FoldWith(change, x0, es)) else None
    decreases |es|
  {
    if es != [] {
      var n := |es| - 1;
      var front, e := es[..n], es[n];
      assert es == front + [e];
      CausalPrefix(es, n, about, first);
      assert e in es && forall x :: x in front ==> x in es;
      BegunIsFold(front, next, change, about, first, x0);
      FoldWithLast(next, None, front, e);
      FoldWithLast(change, x0, front, e);
      if first !in front {
        NothingBefore(front, about, first);
        Untouched(front, next, change, about, first, x0);
      }
    }
  }

  // ---------- Streams never run ahead of the log ----------

  /** What has been published is exactly the log up to the frontier, and it is causal if the log is. */
  ghost predicate Faithful(log: seq<Event>, s: Progress, about: Event -> bool, first: Event)
    requires Within(log, s)
  {
    (forall e :: e in s.stream <==> e in log[..s.frontier]) && Causal(s.stream, about, first)
  }

  lemma {:induction false} PublishedSlice(log: seq<Event>, p: nat, j: nat, frontier: nat, e: Event)
    requires p <= frontier <= |log| && p + j <= |log|
    ensures e in log[..frontier] || e in log[p..p + j] <==> e in log[..Max(frontier, p + j)]
  {
    var top: nat := Max(frontier, p + j);
    if e in log[..top] {
      var i :| 0 <= i < top && log[i] == e;
      if i < frontier { assert log[..frontier][i] == e; } else { assert log[p..p + j][i - p] == e; }
    }
    if e in log[p..p + j] {
      var i :| 0 <= i < j && log[p..p + j][i] == e;
      assert log[..top][p + i] == e;
    }
    if e in log[..frontier] {
      var i :| 0 <= i < frontier && log[..frontier][i] == e;
      assert log[..top][i] == e;
    }
  }

  /** Publishing log[p..p + j] after a stream that has `first` if the log up to p does keeps it causal. */
  lemma {:induction false} SliceCausal(log: seq<Event>, stream: seq<Event>, p: nat, j: nat, about: Event -> bool,
      first: Event)
    requires p + j <= |log| && Causal(log, about, first) && Causal(stream, about, first)
    requires first in log[..p] ==> first in stream
    ensures Causal(stream + log[p..p + j], about, first)
  {
    var all := stream + log[p..p + j];
    forall n | 0 <= n < |all| && about(all[n]) ensures first in all[..n + 1] {
      if n < |stream| {
        assert all[..n + 1] == stream[..n + 1];
      } else {
        var k := p + (n - |stream|);
        assert all[n] == log[k] && first in log[..k + 1];
        assert log[..k + 1] == log[..p] + log[p..k + 1];
        assert all[..n + 1] == stream + log[p..k + 1];
      }
    }
  }

  lemma {:induction false} AttemptFaithful(log: seq<Event>, s: Progress, tick: Tick, t: Progress,
      about: Event -> bool, first: Event)
    requires Within(log, s) && Faithful(log, s, about, first) && Causal(log, about, first)
    requires tick.visible <= |log| && t == Attempt(log, s, tick) && t.frontier == Max(s.frontier, s.p + Reach(s, tick))
    ensures Faithful(log, t, about, first)
  {
    if first in log[..s.p] {
      var i :| 0 <= i < s.p && log[..s.p][i] == first;
      assert log[..s.frontier][i] == first;
    }
    AttemptCausal(log, s, tick, t, about, first);
    AttemptReach(log, s, tick, t);
    forall e
      ensures e in t.stream <==> e in log[..t.frontier]
    {
      PublishedSlice(log, s.p, Reach(s, tick), s.frontier, e);
    }
  }

  lemma {:induction false} DrainFaithful(log: seq<Event>, s: Progress, ticks: seq<Tick>, about: Event -> bool,
      first: Event)
    requires Within(log, s) && Faithful(log, s, about, first) && Causal(log, about, first) && Visible(log, ticks)
    ensures Faithful(log, Drain(log, s, ticks), about, first)
    decreases |ticks|
  {
    if ticks != [] {
      var next := Attempt(log, s, ticks[0]);
      AttemptFaithful(log, s, ticks[0], next, about, first);
      DrainFaithful(log, next, ticks[1..], about, first);
    }
  }

  /** Any projection that begins with one event ends where the log applied once puts it. */
  lemma {:induction false} BegunRefines<S(!new)>(log: seq<Event>, ticks: seq<Tick>, t: Progress,
                              next: (Option<S>, Event) -> Option<S>, change: (S, Event) -> S,
                              about: Event -> bool, first: Event, x0: S)
    requires Visible(log, ticks) && Growing(ticks) && ticks != [] && ticks[|ticks| - 1].crash.None?
    requires t == Drain(log, Progress(0, 0, []), ticks)
    requires Lawful(change) && Causal(log, about, first) && Begins(log[..t.p], next, change, about, first, x0)
    ensures FoldWith(next, None, t.stream) == FoldWith(next, None, log[..t.p])
  {
    DrainFaithful(log, Progress(0, 0, []), ticks, about, first);
    FrontierBound(log, Progress(0, 0, []), ticks, 0);
    CausalPrefix(log, t.p, about, first);
    BegunIsFold(t.stream, next, change, about, first, x0);
    BegunIsFold(log[..t.p], next, change, about, first, x0);
    DrainRefines(change, x0, log, ticks);
  }

  // ---------- Rows under crash replay ----------

  function AboutRow(id: MessageId): Event -> bool {
    (e: Event) => Subject(e) == Some(id)
  }

  /** A message's creations all say the same. */
  ghost predicate OneCreation(es: seq<Event>, m: Message) {
    forall e :: e in es && Creates(e, m.id) ==> e == MessageCreated(m)
  }

  lemma RowBegins(es: seq<Event>, m: Message)
    requires OneCreation(es, m)
    ensures Begins(es, RowNexter(m.id), Changer(m.id), AboutRow(m.id), MessageCreated(m), RowView(m, {}))
  {
  }

  /**
   Crash-replay refinement on mobile, row by row: after any schedule of batches and crashes
   ending with a commit, the row is what the log applied once leaves.
   */
  lemma {:induction false} MobileRowRefines(log: seq<Event>, ticks: seq<Tick>, m: Message, t: Progress)
    requires Visible(log, ticks) && Growing(ticks) && ticks != [] && ticks[|ticks| - 1].crash.None?
    requires t == Drain(log, Progress(0, 0, []), ticks)
    requires Causal(log, AboutRow(m.id), MessageCreated(m)) && OneCreation(log, m)
    ensures FoldWith(RowNexter(m.id), None, t.stream) == FoldWith(RowNexter(m.id), None, log[..t.p])
  {
    assert forall e :: e in log[..t.p] ==> e in log;
    RowBegins(log[..t.p], m);
    ChangerLawful(m.id);
    BegunRefines(log, ticks, t, RowNexter(m.id), Changer(m.id), AboutRow(m.id), MessageCreated(m), RowView(m, {}));
  }

  // ---------- Entries under crash replay ----------

  function AboutConversation(c: ConversationId): Event -> bool {
    (e: Event) => Home(e) == c
  }

  /** A conversation is created once. */
  ghost predicate OneOpening(es: seq<Event>, c: ConversationId) {
    forall i, j | 0 <= i < |es| && 0 <= j < |es| && es[i].ConversationCreated? && es[j].ConversationCreated? ::
      es[i].conversationId == c && es[j].conversationId == c ==> i == j
  }

  lemma {:induction false} NeverOpened(es: seq<Event>, self: UserId, c: ConversationId)
    requires forall e :: e in es ==> !Opens(e, self, c)
    ensures FoldWith(EntryNexter(self, c), None, es) == None
    decreases |es|
  {
    if es != [] {
      assert es[0] in es && EntryNext(None, es[0], self, c) == None;
      NeverOpened(es[1..], self, c);
    }
  }

  lemma EntryBegins(es: seq<Event>, self: UserId, c: ConversationId, first: Event)
    requires Opens(first, self, c)
    requires forall e :: e in es && Opens(e, self, c) ==> e == first
    requires forall e :: e in es ==> !Closes(e, self, c)
    ensures Begins(es, EntryNexter(self, c), EntryChanger(self, c), AboutConversation(c), first,
                   ConversationView(0, AllUnread(first.members)))
  {
  }

  /** Whether the last word about membership of the list was an opening. */
  function Aliver(self: UserId, c: ConversationId): (bool, Event) -> bool {
    (alive: bool, e: Event) => if Opens(e, self, c) then true else if Closes(e, self, c) then false else alive
  }

  lemma AliverLawful(self: UserId, c: ConversationId)
    ensures Lawful(Aliver(self, c))
  {
  }

  lemma {:induction false} EntryAlive(es: seq<Event>, entry: Option<ConversationView>, alive: bool, self: UserId,
      c: ConversationId)
    requires entry.Some? ==> alive
    ensures FoldWith(EntryNexter(self, c), entry, es).Some? ==> FoldWith(Aliver(self, c), alive, es)
    decreases |es|
  {
    if es != [] {
      EntryAlive(es[1..], EntryNext(entry, es[0], self, c), Aliver(self, c)(alive, es[0]), self, c);
    }
  }

  /** Nothing opens a conversation after something about it, if it is created once and first. */
  lemma {:induction false} LaterIsNoOpening(es: seq<Event>, self: UserId, c: ConversationId, first: Event, k: nat,
      n: nat)
    requires Causal(es, AboutConversation(c), first) && OneOpening(es, c)
    requires first.ConversationCreated? && first.conversationId == c && k < n < |es| && Home(es[k]) == c
    ensures !Opens(es[n], self, c)
  {
    assert AboutConversation(c)(es[k]);
    var i :| 0 <= i < k + 1 && es[..k + 1][i] == first;
    assert es[i] == first;
  }

  /** Once closed, a conversation created only once stays closed. */
  lemma {:induction false} ClosedForGood(es: seq<Event>, self: UserId, c: ConversationId, first: Event, k: nat, n: nat)
    requires Causal(es, AboutConversation(c), first) && OneOpening(es, c)
    requires first.ConversationCreated? && first.conversationId == c && k < n <= |es| && Closes(es[k], self, c)
    ensures !FoldWith(Aliver(self, c), false, es[..n])
    decreases n
  {
    AliverLast(es, self, c, n);
    if k < n - 1 {
      ClosedForGood(es, self, c, first, k, n - 1);
      LaterIsNoOpening(es, self, c, first, k, n - 1);
    }
  }

  lemma {:induction false} AliverLast(es: seq<Event>, self: UserId, c: ConversationId, n: nat)
    requires 0 < n <= |es|
    ensures FoldWith(Aliver(self, c), false, es[..n])
         == if Opens(es[n - 1], self, c) then true
            else if Closes(es[n - 1], self, c) then false else FoldWith(Aliver(self, c), false, es[..n - 1])
  {
    assert es[..n] == es[..n - 1] + [es[n - 1]];
    FoldWithLast(Aliver(self, c), false, es[..n - 1], es[n - 1]);
  }

  /** Crash-replay refinement on mobile for a list entry, across its creation and deletion. */
  lemma {:induction false} MobileEntryRefines(log: seq<Event>, ticks: seq<Tick>, self: UserId, c: ConversationId,
      first: Event, t: Progress)
    requires Visible(log, ticks) && Growing(ticks) && ticks != [] && ticks[|ticks| - 1].crash.None?
    requires t == Drain(log, Progress(0, 0, []), ticks)
    requires Causal(log, AboutConversation(c), first) && OneOpening(log, c) && first in log
    requires first.ConversationCreated? && first.conversationId == c
    ensures FoldWith(EntryNexter(self, c), None, t.stream) == FoldWith(EntryNexter(self, c), None, log[..t.p])
  {
    var prefix := log[..t.p];
    DrainFaithful(log, Progress(0, 0, []), ticks, AboutConversation(c), first);
    FrontierBound(log, Progress(0, 0, []), ticks, 0);
    OpeningIsFirst(log, t.p, self, c, first);
    if self !in first.members {
      NeverOpened(t.stream, self, c);
      NeverOpened(prefix, self, c);
    } else if exists k :: 0 <= k < t.p && Closes(log[k], self, c) {
      var k :| 0 <= k < t.p && Closes(log[k], self, c);
      ClosedForGood(log, self, c, first, k, t.p);
      AliverLawful(self, c);
      DrainRefines(Aliver(self, c), false, log, ticks);
      EntryAlive(t.stream, None, false, self, c);
      EntryAlive(prefix, None, false, self, c);
    } else {
      EntryBegins(prefix, self, c, first);
      EntryChangerLawful(self, c);
      BegunRefines(log, ticks, t, EntryNexter(self, c), EntryChanger(self, c), AboutConversation(c), first,
                   ConversationView(0, AllUnread(first.members)));
    }
  }

  lemma {:induction false} OpeningIsFirst(log: seq<Event>, n: nat, self: UserId, c: ConversationId, first: Event)
    requires n <= |log| && OneOpening(log, c) && first in log && first.ConversationCreated? && first.conversationId == c
    ensures forall e :: e in log[..n] && Opens(e, self, c) ==> e == first
  {
    var i :| 0 <= i < |log| && log[i] == first;
    forall e | e in log[..n] && Opens(e, self, c) ensures e == first {
      var j :| 0 <= j < n && log[..n][j] == e;
      assert log[j] == e;
    }
  }

  // ---------- Entries across a REST snapshot ----------

  /** A stream that begins at `start` never runs ahead of the log about what begins after it. */
  lemma {:induction false} StreamCausal(log: seq<Event>, s: Progress, ticks: seq<Tick>, about: Event -> bool,
      first: Event)
    requires Within(log, s) && Visible(log, ticks) && Causal(log, about, first) && Causal(s.stream, about, first)
    requires first in log[..s.p] ==> first in s.stream
    ensures var t := Drain(log, s, ticks); Causal(t.stream, about, first) && (first in log[..t.p] ==> first in t.stream)
    decreases |ticks|
  {
    if ticks != [] {
      AttemptCausal(log, s, ticks[0], Attempt(log, s, ticks[0]), about, first);
      StreamCausal(log, Attempt(log, s, ticks[0]), ticks[1..], about, first);
    }
  }

  lemma {:induction false} AttemptCausal(log: seq<Event>, s: Progress, tick: Tick, t: Progress, about: Event -> bool,
      first: Event)
    requires Within(log, s) && tick.visible <= |log| && t == Attempt(log, s, tick)
    requires Causal(log, about, first) && Causal(s.stream, about, first) && (first in log[..s.p] ==> first in s.stream)
    ensures Causal(t.stream, about, first) && (first in log[..t.p] ==> first in t.stream)
  {
    var j := Reach(s, tick);
    AttemptReach(log, s, tick, t);
    SliceCausal(log, s.stream, s.p, j, about, first);
    assert log[..s.p + j] == log[..s.p] + log[s.p..s.p + j];
  }

  lemma {:induction false} BeginsPart<S(!new)>(es: seq<Event>, part: seq<Event>,
      next: (Option<S>, Event) -> Option<S>, change: (S, Event) -> S, about: Event -> bool, first: Event, x0: S)
    requires Begins(es, next, change, about, first, x0) && forall e :: e in part ==> e in es
    ensures Begins(part, next, change, about, first, x0)
  {
  }

  /** From an existing entry, where nothing closes it, changes are all there is. */
  lemma {:induction false} ChangesOnly<S(!new)>(es: seq<Event>, next: (Option<S>, Event) -> Option<S>,
      change: (S, Event) -> S, about: Event -> bool, first: Event, x0: S, x: S)
    requires Begins(es, next, change, about, first, x0)
    ensures FoldWith(next, Some(x), es) == Some(FoldWith(change, x, es))
    decreases |es|
  {
    if es != [] {
      assert es[0] in es && next(Some(x), es[0]) == Some(change(x, es[0]));
      ChangesOnly(es[1..], next, change, about, first, x0, change(x, es[0]));
    }
  }

  /** The barrier for any lawful projection: folded up to the cut, then fed from `start`, it ends where the log does. */
  lemma {:induction false} LawfulBarrier<S(!new)>(step: (S, Event) -> S, origin: S, log: seq<Event>, start: nat,
      cut: nat, ticks: seq<Tick>, t: Progress)
    requires Lawful(step) && start <= cut <= |log| && Visible(log, ticks)
    requires t == Drain(log, Progress(start, cut, []), ticks) && t.p == |log|
    ensures FoldWith(step, FoldWith(step, origin, log[..cut]), t.stream) == FoldWith(step, origin, log)
  {
    SubscriptionCovers(step, origin, log, cut, start);
    DrainCovers(step, origin, log, Progress(start, cut, []), ticks, FoldWith(step, origin, log[..cut]));
    assert log[|log|..|log|] == [] && log[..|log|] == log;
  }

  /** A projection that began before the cut, or begins in the stream. */
  lemma {:induction false} BegunBarrier<S(!new)>(log: seq<Event>, start: nat, cut: nat, ticks: seq<Tick>, t: Progress,
      next: (Option<S>, Event) -> Option<S>, change: (S, Event) -> S, about: Event -> bool, first: Event, x0: S)
    requires Lawful(change) && Causal(log, about, first) && Begins(log, next, change, about, first, x0)
    requires first in log && start <= cut <= |log| && Visible(log, ticks)
    requires t == Drain(log, Progress(start, cut, []), ticks) && t.p == |log|
    ensures FoldWith(next, FoldWith(next, None, log[..cut]), t.stream) == FoldWith(next, None, log)
  {
    forall e | e in t.stream ensures e in log { StreamFromLog(log, Progress(start, cut, []), ticks, e); }
    CausalPrefix(log, cut, about, first);
    BeginsPart(log, log[..cut], next, change, about, first, x0);
    BeginsPart(log, t.stream, next, change, about, first, x0);
    BegunIsFold(log[..cut], next, change, about, first, x0);
    BegunIsFold(log, next, change, about, first, x0);
    if first in log[..cut] {
      ChangesOnly(t.stream, next, change, about, first, x0, FoldWith(change, x0, log[..cut]));
      LawfulBarrier(change, x0, log, start, cut, ticks, t);
    } else {
      BeginsInStream(log, start, cut, ticks, t, next, change, about, first, x0);
    }
  }

  lemma {:induction false} BeginsInStream<S(!new)>(log: seq<Event>, start: nat, cut: nat, ticks: seq<Tick>, t: Progress,
      next: (Option<S>, Event) -> Option<S>, change: (S, Event) -> S, about: Event -> bool, first: Event, x0: S)
    requires Lawful(change) && Causal(log, about, first) && Begins(log, next, change, about, first, x0)
    requires first in log && start <= cut <= |log| && Visible(log, ticks) && first !in log[..cut]
    requires t == Drain(log, Progress(start, cut, []), ticks) && t.p == |log|
    requires Begins(t.stream, next, change, about, first, x0)
    ensures FoldWith(next, None, t.stream) == Some(FoldWith(change, x0, log))
  {
    assert log[..start] == log[..cut][..start] && log[..|log|] == log;
    StreamCausal(log, Progress(start, cut, []), ticks, about, first);
    BegunIsFold(t.stream, next, change, about, first, x0);
    NothingYet(log, start, next, change, about, first, x0);
    SameStream(log, Progress(start, cut, []), Progress(start, start, []), ticks);
    LawfulBarrier(change, x0, log, start, start, ticks, Drain(log, Progress(start, start, []), ticks));
  }

  /** Before the first event changes leave `x0` alone. */
  lemma {:induction false} NothingYet<S(!new)>(log: seq<Event>, n: nat, next: (Option<S>, Event) -> Option<S>,
      change: (S, Event) -> S, about: Event -> bool, first: Event, x0: S)
    requires n <= |log| && Causal(log, about, first) && Begins(log, next, change, about, first, x0)
    requires first !in log[..n]
    ensures FoldWith(change, x0, log[..n]) == x0
  {
    CausalPrefix(log, n, about, first);
    NothingBefore(log[..n], about, first);
    BeginsPart(log, log[..n], next, change, about, first, x0);
    Untouched(log[..n], next, change, about, first, x0);
  }

  /** The barrier for one list entry over a log, across its creation and deletion. */
  lemma {:induction false} EntryBarrier(log: seq<Event>, self: UserId, c: ConversationId, first: Event, start: nat,
      cut: nat, ticks: seq<Tick>, t: Progress)
    requires Causal(log, AboutConversation(c), first) && OneOpening(log, c) && first in log
    requires first.ConversationCreated? && first.conversationId == c
    requires start <= cut <= |log| && Visible(log, ticks)
    requires t == Drain(log, Progress(start, cut, []), ticks) && t.p == |log|
    ensures FoldWith(EntryNexter(self, c), FoldWith(EntryNexter(self, c), None, log[..cut]), t.stream)
         == FoldWith(EntryNexter(self, c), None, log)
  {
    OpeningIsFirst(log, |log|, self, c, first);
    assert log[..|log|] == log && forall e :: e in log[..cut] ==> e in log;
    if self !in first.members {
      forall e | e in t.stream ensures e in log { StreamFromLog(log, Progress(start, cut, []), ticks, e); }
      NeverOpened(log, self, c);
      NeverOpened(log[..cut], self, c);
      NeverOpened(t.stream, self, c);
    } else if k :| 0 <= k < |log| && Closes(log[k], self, c) {
      ClosedForGood(log, self, c, first, k, |log|);
      AliverLawful(self, c);
      LawfulBarrier(Aliver(self, c), false, log, start, cut, ticks, t);
      EntryAlive(log, None, false, self, c);
      EntryAlive(log[..cut], None, false, self, c);
      EntryAlive(t.stream, FoldWith(EntryNexter(self, c), None, log[..cut]),
                 FoldWith(Aliver(self, c), false, log[..cut]), self, c);
    } else {
      EntryBegins(log, self, c, first);
      EntryChangerLawful(self, c);
      BegunBarrier(log, start, cut, ticks, t, EntryNexter(self, c), EntryChanger(self, c), AboutConversation(c), first,
                   ConversationView(0, AllUnread(first.members)));
    }
  }

  // ---------- Every outbox is causal ----------

  /** Every event about a message has its creation at or before it. */
  ghost predicate OutboxCausal(db: A.Db) {
    forall j :: 0 <= j < |db.outbox| && Subject(db.outbox[j]).Some? ==>
      exists i :: 0 <= i <= j && Creates(db.outbox[i], Subject(db.outbox[j]).value)
  }

  lemma {:induction false} NextCausal(w: D.World, s: D.Step)
    requires D.Inv(w) && OutboxCausal(w.db)
    ensures OutboxCausal(D.Next(w, s).db)
  {
    var v := D.Next(w, s);
    D.NextGrows(w, s);
    forall j | 0 <= j < |v.db.outbox| && Subject(v.db.outbox[j]).Some?
      ensures exists i :: 0 <= i <= j && Creates(v.db.outbox[i], Subject(v.db.outbox[j]).value)
    {
      var e := v.db.outbox[j];
      if j < |w.db.outbox| {
        assert e == w.db.outbox[j];
        var i :| 0 <= i <= j && Creates(w.db.outbox[i], Subject(e).value);
        assert v.db.outbox[i] == w.db.outbox[i];
      } else if e.MessageCreated? {
        assert Creates(v.db.outbox[j], e.message.id);
      } else {
        NewEventKnown(w, s, v, j);
        var i :| D.CreatedAt(w.db.outbox, i, Subject(e).value);
        assert v.db.outbox[i] == w.db.outbox[i];
      }
    }
  }

  /** A new event other than a creation is about a message that was stored before. */
  lemma {:induction false} NewEventKnown(w: D.World, s: D.Step, v: D.World, j: nat)
    requires D.Inv(w) && v == D.Next(w, s) && |w.db.outbox| <= j < |v.db.outbox|
    requires Subject(v.db.outbox[j]).Some? && !v.db.outbox[j].MessageCreated?
    ensures Subject(v.db.outbox[j]).value in w.db.messages
  {
    if s.RunTransaction? {
      CommittedEventKnown(w.db, w.tasks[s.task], s.pick, v.db, j);
    }
  }

  lemma {:induction false} CommittedEventKnown(a: A.Db, task: D.Task, pick: A.Choice, b: A.Db, j: nat)
    requires D.ReactionsPlaced(a) && D.StillValid(a, task) && task.stage.Checked?
    requires A.Transact(a, task.cmd, task.stage.accepted, pick) == A.Committed(b)
    requires |a.outbox| <= j < |b.outbox| && Subject(b.outbox[j]).Some? && !b.outbox[j].MessageCreated?
    ensures Subject(b.outbox[j]).value in a.messages
  {
    if task.cmd.RemoveReaction? {
      var c, id, emoji := task.cmd.conversationId, task.cmd.messageId, task.cmd.emoji;
      var key := A.ReactionKey(id, Reaction(emoji, task.cmd.actor.value));
      assert A.InConversation(a, id, a.reactions[key]);
    }
  }

  lemma {:induction false} RunCausal(w: D.World, steps: seq<D.Step>)
    requires D.Inv(w) && OutboxCausal(w.db)
    ensures OutboxCausal(D.Run(w, steps).db)
    decreases |steps|
  {
    if steps != [] {
      NextCausal(w, steps[0]);
      D.NextKeeps(w, steps[0]);
      RunCausal(D.Next(w, steps[0]), steps[1..]);
    }
  }

  /** The creation announced for a stored message. */
  lemma {:induction false} CreationOf(db: A.Db, id: MessageId) returns (m: Message)
    requires D.Ledger(db) && OutboxCausal(db) && id in db.messages
    ensures m.id == id && D.SameIdentity(m, db.messages[id]) && MessageCreated(m) in db.outbox
    ensures Causal(db.outbox, AboutRow(id), MessageCreated(m)) && OneCreation(db.outbox, m)
  {
    var i :| D.CreatedAt(db.outbox, i, id);
    m := db.outbox[i].message;
    CausalOf(db, id, i);
    OneCreationOf(db, id, i);
  }

  lemma {:induction false} CausalOf(db: A.Db, id: MessageId, i: nat)
    requires D.Ledger(db) && OutboxCausal(db) && D.CreatedAt(db.outbox, i, id)
    ensures Causal(db.outbox, AboutRow(id), db.outbox[i])
  {
    var about := AboutRow(id);
    forall j | 0 <= j < |db.outbox| && about(db.outbox[j]) ensures db.outbox[i] in db.outbox[..j + 1] {
      CreationBefore(db, id, i, j);
    }
  }

  lemma {:induction false} OneCreationOf(db: A.Db, id: MessageId, i: nat)
    requires D.Ledger(db) && D.CreatedAt(db.outbox, i, id)
    ensures OneCreation(db.outbox, db.outbox[i].message)
  {
    forall e | e in db.outbox && Creates(e, id) ensures e == db.outbox[i] {
      var k :| 0 <= k < |db.outbox| && db.outbox[k] == e;
      SameCreation(db, id, i, k);
    }
  }

  lemma {:induction false} SameCreation(db: A.Db, id: MessageId, i: nat, k: nat)
    requires D.Ledger(db) && D.CreatedAt(db.outbox, i, id) && k < |db.outbox| && Creates(db.outbox[k], id)
    ensures k == i
  {
    assert D.CreatedAt(db.outbox, k, id);
  }

  lemma {:induction false} CreationBefore(db: A.Db, id: MessageId, i: nat, j: nat)
    requires D.Ledger(db) && OutboxCausal(db) && D.CreatedAt(db.outbox, i, id)
    requires j < |db.outbox| && Subject(db.outbox[j]) == Some(id)
    ensures i <= j && db.outbox[i] in db.outbox[..j + 1]
  {
    var k :| 0 <= k <= j && Creates(db.outbox[k], id);
    SameCreation(db, id, i, k);
    assert db.outbox[..j + 1][k] == db.outbox[i];
  }

  // ---------- Mobile and database ----------

  /** The content last written for a message, by its creation or an edit. */
  function LastText(es: seq<Event>, id: MessageId): string
    decreases |es|
  {
    if es == [] then ""
    else
      match es[|es| - 1]
      case MessageCreated(m) => if m.id == id then m.content else LastText(es[..|es| - 1], id)
      case MessageEdited(_, target, content) => if target == id then content else LastText(es[..|es| - 1], id)
      case _ => LastText(es[..|es| - 1], id)
  }

  /** Whether a deletion came after it. */
  predicate Cleared(es: seq<Event>, id: MessageId)
    decreases |es|
  {
    if es == [] then false
    else
      match es[|es| - 1]
      case MessageCreated(m) => m.id != id && Cleared(es[..|es| - 1], id)
      case MessageEdited(_, target, _) => target != id && Cleared(es[..|es| - 1], id)
      case MessageDeleted(_, target) => target == id || Cleared(es[..|es| - 1], id)
      case _ => Cleared(es[..|es| - 1], id)
  }

  /** The mobile row always holds the text last written; the stored one holds it unless a deletion cleared it. */
  predicate Mirrors(es: seq<Event>, id: MessageId, mobile: RowView, stored: RowView) {
    && mobile == stored.(message := stored.message.(content := LastText(es, id)))
    && stored.message.content == (if Cleared(es, id) then "" else LastText(es, id))
    && (Cleared(es, id) ==> stored.message.deleted)
  }

  ghost predicate CreatedOnce(es: seq<Event>, id: MessageId) {
    forall i, j | 0 <= i < |es| && 0 <= j < |es| :: Creates(es[i], id) && Creates(es[j], id) ==> i == j
  }

  lemma {:induction false} MirrorsStep(self: UserId, es: seq<Event>, web: Option<RowView>, mobile: Option<RowView>,
      e: Event, id: MessageId)
    requires web.Some? ==> mobile.Some? && Mirrors(es, id, mobile.value, web.value)
    requires Creates(e, id) ==> mobile.None?
    ensures RowStep(self, web, e, id).Some? ==>
      RowNext(mobile, e, id).Some?
      && Mirrors(es + [e], id, RowNext(mobile, e, id).value, RowStep(self, web, e, id).value)
  {
    assert (es + [e])[..|es|] == es;
  }

  /** Over a log the mobile row mirrors the web's; before the creation there is none on either. */
  lemma {:induction false} RowsMirror(es: seq<Event>, n: nat, self: UserId, id: MessageId)
    requires CreatedOnce(es, id) && n <= |es|
    ensures var web, mobile := Get(Fold(self, EMPTY, es[..n]).rows, id), FoldWith(RowNexter(id), None, es[..n]);
      && (web.Some? ==> mobile.Some? && Mirrors(es[..n], id, mobile.value, web.value))
      && (mobile.Some? ==> exists k :: 0 <= k < n && Creates(es[k], id))
    decreases n
  {
    if n != 0 {
      var front, e := es[..n - 1], es[n - 1];
      assert es[..n] == front + [e];
      RowsMirror(es, n - 1, self, id);
      FoldLast(self, EMPTY, front, e);
      FoldWithLast(RowNexter(id), None, front, e);
      var web, mobile := Get(Fold(self, EMPTY, front).rows, id), FoldWith(RowNexter(id), None, front);
      ApplyAt(self, Fold(self, EMPTY, front), e, id, 0);
      MirrorsStep(self, front, web, mobile, e, id);
    }
  }

  /**
   From command to mobile screen: after any run of the worker and any crash-replayed drain of
   its outbox, the mobile row of every live message holds the content last created or edited in
   the log and is the stored row in everything else; the stored content is that text too, unless
   the message was deleted after it was written.
   */
  lemma {:induction false} MobileShowsStored(bots: map<UserId, bool>, steps: seq<D.Step>, ticks: seq<Tick>, db: A.Db,
      id: MessageId, t: Progress)
    requires db == D.Run(D.Initial(bots), steps).db
    requires Visible(db.outbox, ticks) && Growing(ticks) && ticks != [] && ticks[|ticks| - 1].crash.None?
    requires t == Drain(db.outbox, Progress(0, 0, []), ticks) && t.p == |db.outbox|
    requires id in db.messages && P.Live(db, db.messages[id].conversationId)
    ensures var row := FoldWith(RowNexter(id), None, t.stream);
      row.Some? && Mirrors(db.outbox, id, row.value, RowView(db.messages[id], P.ReactionsOf(db, id)))
  {
    RunFacts(bots, steps, db);
    var m := CreationOf(db, id);
    DrainedRow(db.outbox, ticks, m, t);
    P.LogIsState(bots, steps, 0);
    LoggedRowStored(db, id);
  }

  lemma {:induction false} RunFacts(bots: map<UserId, bool>, steps: seq<D.Step>, db: A.Db)
    requires db == D.Run(D.Initial(bots), steps).db
    ensures D.Ledger(db) && OutboxCausal(db) && Opened(db)
  {
    D.InitialInv(bots);
    D.RunKeeps(D.Initial(bots), steps);
    RunCausal(D.Initial(bots), steps);
    RunOpened(D.Initial(bots), steps);
  }

  lemma {:induction false} DrainedRow(log: seq<Event>, ticks: seq<Tick>, m: Message, t: Progress)
    requires Visible(log, ticks) && Growing(ticks) && ticks != [] && ticks[|ticks| - 1].crash.None?
    requires t == Drain(log, Progress(0, 0, []), ticks) && t.p == |log|
    requires Causal(log, AboutRow(m.id), MessageCreated(m)) && OneCreation(log, m)
    ensures FoldWith(RowNexter(m.id), None, t.stream) == FoldWith(RowNexter(m.id), None, log)
  {
    MobileRowRefines(log, ticks, m, t);
    assert log[..|log|] == log;
  }

  /** The row the committed log leaves on mobile, against the database. */
  lemma {:induction false} LoggedRowStored(db: A.Db, id: MessageId)
    requires D.Ledger(db) && P.Agrees(db, 0, Fold(0, EMPTY, db.outbox))
    requires id in db.messages && P.Live(db, db.messages[id].conversationId)
    ensures var row := FoldWith(RowNexter(id), None, db.outbox);
      row.Some? && Mirrors(db.outbox, id, row.value, RowView(db.messages[id], P.ReactionsOf(db, id)))
  {
    LedgerCreatesOnce(db, id);
    RowsMirror(db.outbox, |db.outbox|, 0, id);
    assert db.outbox[..|db.outbox|] == db.outbox;
    assert Get(Fold(0, EMPTY, db.outbox).rows, id) == P.RowOf(db, id);
  }

  lemma {:induction false} LedgerCreatesOnce(db: A.Db, id: MessageId)
    requires D.Ledger(db)
    ensures CreatedOnce(db.outbox, id)
  {
    forall i, j | 0 <= i < |db.outbox| && 0 <= j < |db.outbox| && Creates(db.outbox[i], id) && Creates(db.outbox[j], id)
      ensures i == j
    {
      assert D.CreatedAt(db.outbox, i, id) && D.CreatedAt(db.outbox, j, id);
    }
  }

  /**
   The mobile row of a live message is exactly the stored one if and only if no deletion came
   after the last text or that text was empty. So it is for every message that is not deleted.
   */
  lemma {:induction false} MobileIsStoredExactly(bots: map<UserId, bool>, steps: seq<D.Step>, ticks: seq<Tick>,
      db: A.Db, id: MessageId, t: Progress)
    requires db == D.Run(D.Initial(bots), steps).db
    requires Visible(db.outbox, ticks) && Growing(ticks) && ticks != [] && ticks[|ticks| - 1].crash.None?
    requires t == Drain(db.outbox, Progress(0, 0, []), ticks) && t.p == |db.outbox|
    requires id in db.messages && P.Live(db, db.messages[id].conversationId)
    ensures FoldWith(RowNexter(id), None, t.stream) == Some(RowView(db.messages[id], P.ReactionsOf(db, id)))
      <==> !Cleared(db.outbox, id) || LastText(db.outbox, id) == ""
    ensures !db.messages[id].deleted ==> !Cleared(db.outbox, id)
  {
    MobileShowsStored(bots, steps, ticks, db, id, t);
  }

  /** The difference is real: after these two events mobile still holds the text. */
  lemma {:induction false} DeletedTextStays(m: Message)
    requires !m.deleted && m.content != ""
    ensures var log := [MessageCreated(m), MessageDeleted(m.conversationId, m.id)];
      var row := FoldWith(RowNexter(m.id), None, log);
      && Cleared(log, m.id) && LastText(log, m.id) == m.content
      && row.Some? && row.value.message.deleted && row.value.message.content == m.content
      && Get(Fold(0, EMPTY, log).rows, m.id) != row
  {
    var created, deleted := MessageCreated(m), MessageDeleted(m.conversationId, m.id);
    var log := [created, deleted];
    assert log == [created] + [deleted] && [created] == [] + [created];
    assert log[..1] == [created];
    FoldWithLast(RowNexter(m.id), None, [created], deleted);
    FoldWithLast(RowNexter(m.id), None, [], created);
    FoldLast(0, EMPTY, [created], deleted);
    FoldLast(0, EMPTY, [], created);
    ApplyAt(0, EMPTY, created, m.id, 0);
    ApplyAt(0, Fold(0, EMPTY, [created]), deleted, m.id, 0);
  }

  /**
   Deleted does not mean cleared. An edit checked before a deletion and committed after it writes
   its text into the deleted row, on the server and at both clients.
   */
  lemma {:induction false} EditOutlivesDelete(w: D.World, edit: nat, delete: nat, e: A.Choice, d: A.Choice, v: D.World)
    requires D.Inv(w) && edit in w.tasks && delete in w.tasks && edit != delete
    requires w.tasks[edit].cmd.Edit? && w.tasks[edit].cmd.actor.Some? && w.tasks[edit].stage == D.Checked(0)
    requires w.tasks[delete].cmd.Delete? && w.tasks[delete].cmd.actor.Some? && w.tasks[delete].stage == D.Checked(0)
    requires w.tasks[edit].cmd.messageId == w.tasks[delete].cmd.messageId
    requires D.PickOk(w.db, w.tasks[edit].cmd, e) && d.newId !in w.db.messages
    requires v == D.Next(D.Next(w, D.RunTransaction(delete, d)), D.RunTransaction(edit, e))
    ensures var id := w.tasks[edit].cmd.messageId;
      && id in v.db.messages && v.db.messages[id].deleted
      && v.db.messages[id].content == LastText(v.db.outbox, id) == w.tasks[edit].cmd.content
      && !Cleared(v.db.outbox, id)
  {
    var id := w.tasks[edit].cmd.messageId;
    assert D.StillValid(w.db, w.tasks[edit]);
    BothCommit(w, edit, delete, e, d, v);
    DeleteThenEdit(w.db, w.tasks[delete].cmd.conversationId, w.tasks[edit].cmd.conversationId, id,
                   w.tasks[edit].cmd.content);
  }

  /** And a run from the empty system gets there. */
  lemma {:induction false} LateEdit() returns (steps: seq<D.Step>, id: MessageId)
    ensures var db := D.Run(D.Initial(map[]), steps).db;
      && id in db.messages && db.messages[id].deleted
      && db.messages[id].content == LastText(db.outbox, id) == "late" && !Cleared(db.outbox, id)
  {
    var checked, x := BothChecked();
    id := 0;
    var second, first := D.RunTransaction(2, A.Choice(1, 0, [])), D.RunTransaction(1, A.Choice(1, 0, []));
    D.InitialInv(map[]);
    D.RunKeeps(D.Initial(map[]), checked);
    EditOutlivesDelete(x, 1, 2, A.Choice(1, 0, []), A.Choice(1, 0, []), D.Next(D.Next(x, second), first));
    steps := checked + [second] + [first];
    D.RunLast(D.Initial(map[]), checked + [second], first);
    D.RunLast(D.Initial(map[]), checked, second);
  }

  /** An edit and a deletion of one message that have both passed their checks. */
  lemma {:induction false} BothChecked() returns (steps: seq<D.Step>, x: D.World)
    ensures x == D.Run(D.Initial(map[]), steps) && x.db.messages.Keys == {0}
    ensures x.tasks == map[1 := D.Task(A.Edit(Some(7), 1, 0, "late"), D.Checked(0)),
                           2 := D.Task(A.Delete(Some(7), 1, 0), D.Checked(0))]
  {
    var edit, delete := A.Edit(Some(7), 1, 0, "late"), A.Delete(Some(7), 1, 0);
    var sent, w := D.OneSent();
    var u := D.Run(w, D.Checking(1, edit));
    D.RunChecking(w, 1, edit, u);
    x := D.Run(u, D.Checking(2, delete));
    D.RunChecking(u, 2, delete, x);
    steps := sent + D.Checking(1, edit) + D.Checking(2, delete);
    D.RunSplit(D.Initial(map[]), sent + D.Checking(1, edit), D.Checking(2, delete));
    D.RunSplit(D.Initial(map[]), sent, D.Checking(1, edit));
  }

  lemma {:induction false} BothCommit(w: D.World, edit: nat, delete: nat, e: A.Choice, d: A.Choice, v: D.World)
    requires edit in w.tasks && delete in w.tasks && edit != delete
    requires w.tasks[edit].cmd.Edit? && w.tasks[edit].cmd.actor.Some? && w.tasks[edit].stage == D.Checked(0)
    requires w.tasks[delete].cmd.Delete? && w.tasks[delete].cmd.actor.Some? && w.tasks[delete].stage == D.Checked(0)
    requires w.tasks[edit].cmd.messageId == w.tasks[delete].cmd.messageId
    requires w.tasks[edit].cmd.messageId in w.db.messages
    requires e.newId !in w.db.messages && d.newId !in w.db.messages
    requires v == D.Next(D.Next(w, D.RunTransaction(delete, d)), D.RunTransaction(edit, e))
    ensures var deleted := A.TxDelete(w.db, w.tasks[delete].cmd.conversationId, w.tasks[edit].cmd.messageId).db;
      v.db == A.TxEdit(deleted, w.tasks[edit].cmd.conversationId, w.tasks[edit].cmd.messageId,
        w.tasks[edit].cmd.content).db
  {
    var u := D.Next(w, D.RunTransaction(delete, d));
    assert u.tasks[edit] == w.tasks[edit] && u.db.messages.Keys == w.db.messages.Keys;
  }

  lemma {:induction false} DeleteThenEdit(db: A.Db, c: ConversationId, d: ConversationId, id: MessageId,
      content: string)
    requires id in db.messages
    ensures var deleted := A.TxDelete(db, c, id).db; var after := A.TxEdit(deleted, d, id, content).db;
      && after.messages[id].deleted && after.messages[id].content == content
      && LastText(after.outbox, id) == content && !Cleared(after.outbox, id)
  {
    var deleted := A.TxDelete(db, c, id).db;
    assert (deleted.outbox + [MessageEdited(d, id, content)])[|deleted.outbox|] == MessageEdited(d, id, content);
  }

  // ---------- Mobile list and database ----------

  predicate OpeningAt(outbox: seq<Event>, i: int, c: ConversationId) {
    0 <= i < |outbox| && outbox[i].ConversationCreated? && outbox[i].conversationId == c
  }

  predicate OpenedBy(outbox: seq<Event>, j: int, c: ConversationId) {
    exists i :: 0 <= i <= j && OpeningAt(outbox, i, c)
  }

  /** Conversations are announced once, exactly those that exist, before anything about them. */
  ghost predicate Opened(db: A.Db) {
    && (forall i, c :: OpeningAt(db.outbox, i, c) ==> c in db.conversations)
    && (forall i, j, c :: OpeningAt(db.outbox, i, c) && OpeningAt(db.outbox, j, c) ==> i == j)
    && (forall c :: c in db.conversations ==> OpenedBy(db.outbox, |db.outbox|, c))
    && (forall j :: 0 <= j < |db.outbox| ==> OpenedBy(db.outbox, j, Home(db.outbox[j])))
  }

  lemma {:induction false} OpenedByMore(a: seq<Event>, b: seq<Event>, i: int, j: int, c: ConversationId)
    requires a <= b && OpenedBy(a, i, c) && i <= j
    ensures OpenedBy(b, j, c)
  {
    var k :| 0 <= k <= i && OpeningAt(a, k, c);
    assert OpeningAt(b, k, c);
  }

  /** Appended events are about conversations that exist, or open one that did not. */
  lemma {:induction false} OpenedStays(a: A.Db, b: A.Db)
    requires Opened(a) && a.outbox <= b.outbox && a.conversations.Keys <= b.conversations.Keys
    requires forall j :: |a.outbox| <= j < |b.outbox| ==>
      Home(b.outbox[j]) in b.conversations && (b.outbox[j].ConversationCreated? ==> j == |a.outbox|)
    requires forall c :: c in b.conversations && c !in a.conversations ==> OpeningAt(b.outbox, |a.outbox|, c)
    requires forall c :: OpeningAt(b.outbox, |a.outbox|, c) ==> c !in a.conversations
    ensures Opened(b)
  {
    var n := |a.outbox|;
    forall i, c | i != n ensures OpeningAt(b.outbox, i, c) <==> OpeningAt(a.outbox, i, c) {
      if 0 <= i < n { assert a.outbox[i] == b.outbox[i]; }
    }
    forall c | c in b.conversations ensures OpenedBy(b.outbox, n, c) {
      if c in a.conversations { OpenedByMore(a.outbox, b.outbox, n, n, c); }
    }
    forall j | 0 <= j < |b.outbox| ensures OpenedBy(b.outbox, j, Home(b.outbox[j])) {
      if j < n {
        assert a.outbox[j] == b.outbox[j];
        OpenedByMore(a.outbox, b.outbox, j, j, Home(b.outbox[j]));
      } else {
        OpenedByMore(b.outbox, b.outbox, n, j, Home(b.outbox[j]));
      }
    }
    forall c | c in b.conversations
      ensures OpenedBy(b.outbox, |b.outbox|, c)
    {
      OpenedByMore(b.outbox, b.outbox, n, |b.outbox|, c);
    }
  }

  lemma {:induction false} OpenedCreate(a: A.Db, c: ConversationId, members: map<UserId, A.Role>, b: A.Db)
    requires Opened(a) && c !in a.conversations && b == D.CreateIn(a, c, members)
    ensures Opened(b)
  {
    OpenedStays(a, b);
  }

  lemma {:induction false} OpenedTombstone(a: A.Db, c: ConversationId, b: A.Db)
    requires Opened(a) && b == D.TombstoneIn(a, c)
    ensures Opened(b)
  {
    if b != a { OpenedStays(a, b); }
  }

  /** What a worker transaction appends is about a conversation that exists. */
  lemma {:induction false} CommittedHome(a: A.Db, task: D.Task, pick: A.Choice, b: A.Db, j: nat)
    requires D.Placed(a) && D.ReactionsPlaced(a) && D.StillValid(a, task) && task.stage.Checked?
    requires A.Transact(a, task.cmd, task.stage.accepted, pick) == A.Committed(b)
    requires |a.outbox| <= j < |b.outbox|
    ensures !b.outbox[j].ConversationCreated? && Home(b.outbox[j]) in a.conversations
  {
    match task.cmd
    case Edit(_, c, id, _) => assert a.messages[id].conversationId in a.conversations;
    case Delete(_, c, id) => assert a.messages[id].conversationId in a.conversations;
    case AddReaction(_, c, id, _) => assert a.messages[id].conversationId in a.conversations;
    case RemoveReaction(actor, c, id, emoji) =>
      assert A.InConversation(a, id, a.reactions[A.ReactionKey(id, Reaction(emoji, actor.value))]);
    case _ =>
  }

  lemma {:induction false} OpenedCommit(a: A.Db, task: D.Task, pick: A.Choice, b: A.Db)
    requires Opened(a) && D.Placed(a) && D.ReactionsPlaced(a) && D.StillValid(a, task) && task.stage.Checked?
    requires A.Transact(a, task.cmd, task.stage.accepted, pick) == A.Committed(b) && a.outbox <= b.outbox
    ensures Opened(b)
  {
    CommittedKeys(a, task, pick, b);
    forall j | |a.outbox| <= j < |b.outbox|
      ensures !b.outbox[j].ConversationCreated? && Home(b.outbox[j]) in a.conversations
    {
      CommittedHome(a, task, pick, b, j);
    }
    OpenedStays(a, b);
  }

  lemma {:induction false} NextOpened(w: D.World, s: D.Step)
    requires D.Inv(w) && Opened(w.db)
    ensures Opened(D.Next(w, s).db)
  {
    var v := D.Next(w, s);
    D.NextGrows(w, s);
    if v.db != w.db {
      match s
      case CreateConversation(c, members) => OpenedCreate(w.db, c, members, v.db);
      case Tombstone(c) => OpenedTombstone(w.db, c, v.db);
      case RunTransaction(t, pick) => OpenedCommit(w.db, w.tasks[t], pick, v.db);
    }
  }

  lemma CommittedKeys(a: A.Db, task: D.Task, pick: A.Choice, b: A.Db)
    requires task.stage.Checked? && A.Transact(a, task.cmd, task.stage.accepted, pick) == A.Committed(b)
    ensures b.conversations.Keys == a.conversations.Keys
  {
  }

  lemma {:induction false} RunOpened(w: D.World, steps: seq<D.Step>)
    requires D.Inv(w) && Opened(w.db)
    ensures Opened(D.Run(w, steps).db)
    decreases |steps|
  {
    if steps != [] {
      NextOpened(w, steps[0]);
      D.NextKeeps(w, steps[0]);
      RunOpened(D.Next(w, steps[0]), steps[1..]);
    }
  }

  /** The opening announced for a conversation. */
  lemma {:induction false} OpeningOf(db: A.Db, c: ConversationId) returns (first: Event)
    requires Opened(db) && c in db.conversations
    ensures first in db.outbox && first.ConversationCreated? && first.conversationId == c
    ensures Causal(db.outbox, AboutConversation(c), first) && OneOpening(db.outbox, c)
  {
    var i :| 0 <= i <= |db.outbox| && OpeningAt(db.outbox, i, c);
    first := db.outbox[i];
    OpeningCausal(db, c, i);
    forall k, j | 0 <= k < |db.outbox| && 0 <= j < |db.outbox| && db.outbox[k].ConversationCreated?
      && db.outbox[j].ConversationCreated?
                  && db.outbox[k].conversationId == c && db.outbox[j].conversationId == c
      ensures k == j
    {
      assert OpeningAt(db.outbox, k, c) && OpeningAt(db.outbox, j, c);
    }
  }

  lemma {:induction false} OpeningCausal(db: A.Db, c: ConversationId, i: nat)
    requires Opened(db) && OpeningAt(db.outbox, i, c)
    ensures Causal(db.outbox, AboutConversation(c), db.outbox[i])
  {
    var about := AboutConversation(c);
    forall j | 0 <= j < |db.outbox| && about(db.outbox[j]) ensures db.outbox[i] in db.outbox[..j + 1] {
      var k :| 0 <= k <= j && OpeningAt(db.outbox, k, Home(db.outbox[j]));
      assert OpeningAt(db.outbox, k, c);
      assert db.outbox[..j + 1][k] == db.outbox[i];
    }
  }

  /** Over a log, where a conversation is created once, the two clients' entries are the same. */
  lemma {:induction false} EntriesSame(es: seq<Event>, self: UserId, c: ConversationId)
    requires OneOpening(es, c)
    ensures Get(Fold(self, EMPTY, es).conversations, c) == FoldWith(EntryNexter(self, c), None, es)
    decreases |es|
  {
    if es != [] {
      var n := |es| - 1;
      var front, e := es[..n], es[n];
      assert es == front + [e];
      EntriesSame(front, self, c);
      FoldLast(self, EMPTY, front, e);
      FoldWithLast(EntryNexter(self, c), None, front, e);
      ApplyAt(self, Fold(self, EMPTY, front), e, 0, c);
      if Opens(e, self, c) {
        forall x | x in front ensures !Opens(x, self, c) {
          var j :| 0 <= j < n && front[j] == x;
          assert es[j] == x;
        }
        NeverOpened(front, self, c);
      }
    }
  }

  /**
   The mobile list: after any run of the worker and any crash-replayed drain of its outbox, the
   entry of every conversation is what the database lists for that user: present exactly for
   members of live conversations, with lastSequence and every read watermark.
   */
  lemma {:induction false} MobileListIsDatabase(bots: map<UserId, bool>, steps: seq<D.Step>, ticks: seq<Tick>, db: A.Db,
                             self: UserId, c: ConversationId, t: Progress)
    requires db == D.Run(D.Initial(bots), steps).db
    requires Visible(db.outbox, ticks) && Growing(ticks) && ticks != [] && ticks[|ticks| - 1].crash.None?
    requires t == Drain(db.outbox, Progress(0, 0, []), ticks) && t.p == |db.outbox|
    requires c in db.conversations
    ensures FoldWith(EntryNexter(self, c), None, t.stream) == P.EntryOf(db, self, c)
  {
    RunFacts(bots, steps, db);
    var first := OpeningOf(db, c);
    DrainedEntry(db.outbox, ticks, self, c, first, t);
    P.LogIsState(bots, steps, self);
    LoggedEntryStored(db, self, c);
  }

  /**
   The bootstrap barrier on mobile. The client subscribes when the publisher stands at `start`,
   installs the conversation list read at a cut after some run of the worker, and replays what
   it buffered; the worker goes on, and the stream may repeat rows from before the cut. At the
   end of the log every list entry is what the database lists: installed before, opened,
   changed or closed in the stream.
   */
  lemma {:induction false} MobileBootstrapBarrier(bots: map<UserId, bool>, before: seq<D.Step>, after: seq<D.Step>,
      start: nat, ticks: seq<Tick>, self: UserId, cut: A.Db, db: A.Db, c: ConversationId, t: Progress)
    requires cut == D.Run(D.Initial(bots), before).db && db == D.Run(D.Initial(bots), before + after).db
    requires start <= |cut.outbox| <= |db.outbox| && Visible(db.outbox, ticks) && c in db.conversations
    requires t == Drain(db.outbox, Progress(start, |cut.outbox|, []), ticks) && t.p == |db.outbox|
    ensures FoldWith(EntryNexter(self, c), P.EntryOf(cut, self, c), t.stream) == P.EntryOf(db, self, c)
  {
    var first := OpeningAfter(bots, before + after, db, c);
    OutboxGrows(bots, before, after, cut, db);
    ListedIsFolded(bots, before, self, c, db.outbox, cut);
    ListedIsFolded(bots, before + after, self, c, db.outbox, db);
    assert db.outbox[..|db.outbox|] == db.outbox;
    EntryBarrier(db.outbox, self, c, first, start, |cut.outbox|, ticks, t);
  }

  lemma {:induction false} OpeningAfter(bots: map<UserId, bool>, steps: seq<D.Step>, db: A.Db, c: ConversationId)
    returns (first: Event)
    requires db == D.Run(D.Initial(bots), steps).db && c in db.conversations
    ensures first in db.outbox && first.ConversationCreated? && first.conversationId == c
    ensures Causal(db.outbox, AboutConversation(c), first) && OneOpening(db.outbox, c)
  {
    RunFacts(bots, steps, db);
    first := OpeningOf(db, c);
  }

  lemma {:induction false} OutboxGrows(bots: map<UserId, bool>, before: seq<D.Step>, after: seq<D.Step>, cut: A.Db,
      db: A.Db)
    requires cut == D.Run(D.Initial(bots), before).db && db == D.Run(D.Initial(bots), before + after).db
    ensures cut.outbox <= db.outbox
  {
    D.InitialInv(bots);
    D.RunKeeps(D.Initial(bots), before);
    D.RunSplit(D.Initial(bots), before, after);
    D.RunGrows(D.Run(D.Initial(bots), before), after);
  }

  /** What the database lists after a run is what mobile folds from the log up to there. */
  lemma {:induction false} ListedIsFolded(bots: map<UserId, bool>, steps: seq<D.Step>, self: UserId, c: ConversationId,
      log: seq<Event>, db: A.Db)
    requires db == D.Run(D.Initial(bots), steps).db && db.outbox <= log && OneOpening(log, c)
    ensures FoldWith(EntryNexter(self, c), None, log[..|db.outbox|]) == P.EntryOf(db, self, c)
  {
    P.LogIsState(bots, steps, self);
    assert log[..|db.outbox|] == db.outbox;
    SnapshotEntry(log, |db.outbox|, self, c);
    assert Get(Fold(self, EMPTY, db.outbox).conversations, c) == P.EntryOf(db, self, c);
  }

  lemma {:induction false} SnapshotEntry(log: seq<Event>, n: nat, self: UserId, c: ConversationId)
    requires n <= |log| && OneOpening(log, c)
    ensures Get(Fold(self, EMPTY, log[..n]).conversations, c) == FoldWith(EntryNexter(self, c), None, log[..n])
  {
    assert forall i :: 0 <= i < n ==> log[..n][i] == log[i];
    EntriesSame(log[..n], self, c);
  }

  lemma {:induction false} DrainedEntry(log: seq<Event>, ticks: seq<Tick>, self: UserId, c: ConversationId,
      first: Event, t: Progress)
    requires Visible(log, ticks) && Growing(ticks) && ticks != [] && ticks[|ticks| - 1].crash.None?
    requires t == Drain(log, Progress(0, 0, []), ticks) && t.p == |log|
    requires Causal(log, AboutConversation(c), first) && OneOpening(log, c) && first in log
    requires first.ConversationCreated? && first.conversationId == c
    ensures FoldWith(EntryNexter(self, c), None, t.stream) == FoldWith(EntryNexter(self, c), None, log)
  {
    MobileEntryRefines(log, ticks, self, c, first, t);
    assert log[..|log|] == log;
  }

  lemma {:induction false} LoggedEntryStored(db: A.Db, self: UserId, c: ConversationId)
    requires Opened(db) && P.Agrees(db, self, Fold(self, EMPTY, db.outbox)) && c in db.conversations
    ensures FoldWith(EntryNexter(self, c), None, db.outbox) == P.EntryOf(db, self, c)
  {
    var first := OpeningOf(db, c);
    EntriesSame(db.outbox, self, c);
    assert Get(Fold(self, EMPTY, db.outbox).conversations, c) == P.EntryOf(db, self, c);
  }
}
