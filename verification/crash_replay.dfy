/**
 One publisher draining the outbox in order, with crashes that roll a batch back after
 any prefix of it was published, feeding clients. Refinement: the resulting stream leaves
 a client where applying the committed log once would.
 */
module CrashReplay {
  import opened Absorption
  import opened Domain
  import opened Replay
  import opened Outbox
  import A = Authority
  import D = Delivery
  import P = Projection

  /** Rows visible when the SELECT runs, and the number of rows published before a crash, if any. */
  datatype Tick = Tick(visible: nat, crash: Option<nat>)

  /**
   Rows before `p` are marked published; rows before `frontier` have been published at
   least once; `stream` is what the broker carried.
   */
  datatype Progress = Progress(p: nat, frontier: nat, stream: seq<Event>)

  predicate Within(log: seq<Event>, s: Progress) {
    s.p <= s.frontier <= |log|
  }

  function BatchLength(s: Progress, tick: Tick): nat {
    if tick.visible <= s.p then 0 else Min(BATCH_SIZE, tick.visible - s.p)
  }

  /** How many rows an attempt publishes. */
  function Reach(s: Progress, tick: Tick): nat {
    if tick.crash.Some? then Min(tick.crash.value, BatchLength(s, tick)) else BatchLength(s, tick)
  }

  function Attempt(log: seq<Event>, s: Progress, tick: Tick): (after: Progress)
    requires Within(log, s) && tick.visible <= |log|
    ensures Within(log, after)
  {
    var n := BatchLength(s, tick);
    match tick.crash
    case None => Progress(s.p + n, Max(s.frontier, s.p + n), s.stream + log[s.p..s.p + n])
    case Some(k) =>
      var j := Min(k, n);
      Progress(s.p, Max(s.frontier, s.p + j), s.stream + log[s.p..s.p + j])
  }

  predicate Visible(log: seq<Event>, ticks: seq<Tick>) {
    forall i :: 0 <= i < |ticks| ==> ticks[i].visible <= |log|
  }

  /** Committed rows stay visible to every later SELECT. */
  predicate Growing(ticks: seq<Tick>) {
    forall i, j :: 0 <= i < j < |ticks| ==> ticks[i].visible <= ticks[j].visible
  }

  function Drain(log: seq<Event>, s: Progress, ticks: seq<Tick>): (after: Progress)
    requires Within(log, s) && Visible(log, ticks)
    ensures Within(log, after)
    decreases |ticks|
  {
    if ticks == [] then s else Drain(log, Attempt(log, s, ticks[0]), ticks[1..])
  }

  // ---------- A drained table really hands out the next log rows ----------

  function TableAt(log: seq<Event>, p: nat): seq<Row>
    requires p <= |log|
  {
    seq(|log|, i requires 0 <= i < |log| => Row(log[i], i < p, 0))
  }

  function Span(from: nat, count: nat): seq<nat> {
    seq(count, k requires 0 <= k < count => from + k)
  }

  /** Exactly the rows from p on are eligible. */
  predicate EligibleFrom(rows: seq<Row>, p: nat) {
    forall i :: 0 <= i < |rows| ==> (Eligible(rows[i]) <==> p <= i)
  }

  lemma {:induction false} SelectSkips(rows: seq<Row>, p: nat, from: nat, limit: nat)
    requires EligibleFrom(rows, p) && from <= p <= |rows|
    ensures Select(rows, {}, from, limit) == Select(rows, {}, p, limit)
    decreases p - from
  {
    if from < p && limit != 0 { SelectSkips(rows, p, from + 1, limit); }
  }

  lemma {:induction false} SelectTakes(rows: seq<Row>, p: nat, from: nat, limit: nat)
    requires EligibleFrom(rows, p) && p <= from <= |rows|
    ensures Select(rows, {}, from, limit) == Span(from, Min(limit, |rows| - from))
    decreases |rows| - from
  {
    if from < |rows| && limit != 0 {
      SelectTakes(rows, p, from + 1, limit - 1);
      assert Span(from, Min(limit, |rows| - from)) == [from] + Span(from + 1, Min(limit - 1, |rows| - (from + 1)));
    }
  }

  lemma {:induction false} SelectSpan(rows: seq<Row>, p: nat, limit: nat)
    requires EligibleFrom(rows, p) && p <= |rows|
    ensures Select(rows, {}, 0, limit) == Span(p, Min(limit, |rows| - p))
  {
    SelectSkips(rows, p, 0, limit);
    SelectTakes(rows, p, p, limit);
  }

  function AllAcked(n: nat): seq<bool> {
    seq(n, _ => true)
  }

  lemma {:induction false} AckedIsSlice(log: seq<Event>, p: nat, batch: nat, n: nat)
    requires n <= batch && p + batch <= |log|
    ensures InTable(TableAt(log, p), Span(p, batch))
    ensures AckedEvents(TableAt(log, p), Span(p, batch), AllAcked(n)) == log[p..p + n]
    decreases n
  {
    if n != 0 {
      AckedIsSlice(log, p, batch, n - 1);
      assert AllAcked(n)[..n - 1] == AllAcked(n - 1);
      assert log[p..p + n] == log[p..p + n - 1] + [log[p + n - 1]];
    }
  }

  lemma {:induction false} MarkedIsAdvance(log: seq<Event>, p: nat, batch: nat, n: nat)
    requires n <= batch && p + batch <= |log|
    ensures InTable(TableAt(log, p), Span(p, batch))
    ensures Marked(TableAt(log, p), Span(p, batch), AllAcked(n)) == TableAt(log, p + n)
    decreases n
  {
    if n == 0 {
      assert TableAt(log, p) == Marked(TableAt(log, p), Span(p, batch), AllAcked(0));
    } else {
      MarkedIsAdvance(log, p, batch, n - 1);
      assert AllAcked(n)[..n - 1] == AllAcked(n - 1);
      assert Mark(TableAt(log, p + n - 1), p + n - 1, true) == TableAt(log, p + n);
    }
  }

  /** The batch drawn from a table drained up to p. */
  lemma {:induction false} BatchIsSpan(seen: seq<Event>, p: nat)
    requires p <= |seen|
    ensures Select(TableAt(seen, p), {}, 0, BATCH_SIZE) == Span(p, Min(BATCH_SIZE, |seen| - p))
  {
    SelectSpan(TableAt(seen, p), p, BATCH_SIZE);
  }

  /**
   processBatch on a table drained up to p, when every publish is acknowledged: it attempts
   the next min(50, rest) rows in order, and its effect is exactly `Attempt`.
   */
  lemma {:induction false} BatchIsAttempt(log: seq<Event>, visible: nat, s: Progress, crash: Option<nat>,
                       table: seq<Row>, batch: seq<nat>, after: Progress)
    requires visible <= |log| && s.p <= visible && Within(log, s)
    requires table == TableAt(log[..visible], s.p) && batch == Select(table, {}, 0, BATCH_SIZE)
    requires after == Attempt(log, s, Tick(visible, crash))
    ensures |batch| == BatchLength(s, Tick(visible, crash)) && Reach(s, Tick(visible, crash)) <= |batch|
    ensures after.stream == s.stream + AckedEvents(table, batch, AllAcked(Reach(s, Tick(visible, crash))))
    ensures TableAt(log[..visible], after.p)
         == if crash.Some? then table else Marked(table, batch, AllAcked(Reach(s, Tick(visible, crash))))
  {
    var seen := log[..visible];
    var j := Reach(s, Tick(visible, crash));
    AttemptReach(log, s, Tick(visible, crash), after);
    BatchIsSpan(seen, s.p);
    SpanPublished(log, seen, s.p, |batch|, j);
    if crash.None? { MarkedIsAdvance(seen, s.p, |batch|, j); }
  }

  lemma {:induction false} SpanPublished(log: seq<Event>, seen: seq<Event>, p: nat, n: nat, j: nat)
    requires seen <= log && j <= n && p + n <= |seen|
    ensures InTable(TableAt(seen, p), Span(p, n))
    ensures AckedEvents(TableAt(seen, p), Span(p, n), AllAcked(j)) == log[p..p + j]
  {
    AckedIsSlice(seen, p, n, j);
    assert seen[p..p + j] == log[p..p + j];
  }

  // ---------- Refinement, for any lawful projection ----------

  /** Once the rows up to any q past the frontier have gone out, the client is where the log puts it. */
  ghost predicate Covered<S>(step: (S, Event) -> S, origin: S, log: seq<Event>, s: Progress, v: S)
    requires Within(log, s)
  {
    forall q | s.frontier <= q <= |log| :: FoldWith(step, v, log[s.p..q]) == FoldWith(step, origin, log[..q])
  }

  /** The client after the rows log[p..p + j] went out again or for the first time. */
  lemma {:induction false} PublishedCovers<S(!new)>(step: (S, Event) -> S, v: S, log: seq<Event>, p: nat, j: nat,
      q: nat, crash: bool)
    requires Lawful(step) && p + j <= q <= |log|
    ensures FoldWith(step, FoldWith(step, v, log[p..p + j]), log[if crash then p else p + j..q])
         == FoldWith(step, v, log[p..q])
  {
    var out, rest := log[p..p + j], log[p + j..q];
    assert log[p..q] == out + rest;
    if crash {
      Absorb(step, v, out, rest);
    } else {
      FoldWithAppend(step, v, out, rest);
    }
  }

  lemma AttemptReach(log: seq<Event>, s: Progress, tick: Tick, t: Progress)
    requires Within(log, s) && tick.visible <= |log| && t == Attempt(log, s, tick)
    ensures var j := Reach(s, tick);
      && s.p + j <= t.frontier && s.frontier <= t.frontier
      && t.p == (if tick.crash.Some? then s.p else s.p + j)
      && t.stream == s.stream + log[s.p..s.p + j]
  {
  }

  lemma {:induction false} AttemptCovers<S(!new)>(step: (S, Event) -> S, origin: S, log: seq<Event>, s: Progress,
      tick: Tick, base: S, t: Progress)
    requires Lawful(step) && Within(log, s) && tick.visible <= |log| && t == Attempt(log, s, tick)
    requires Covered(step, origin, log, s, FoldWith(step, base, s.stream))
    ensures Covered(step, origin, log, t, FoldWith(step, base, t.stream))
  {
    AttemptReach(log, s, tick, t);
    FoldWithAppend(step, base, s.stream, log[s.p..s.p + Reach(s, tick)]);
    CoverSlide(step, origin, log, s, t, Reach(s, tick), FoldWith(step, base, s.stream), tick.crash.Some?);
  }

  lemma {:induction false} CoverSlide<S(!new)>(step: (S, Event) -> S, origin: S, log: seq<Event>, s: Progress,
      t: Progress, j: nat, v: S, crash: bool)
    requires Lawful(step) && Within(log, s) && Within(log, t) && Covered(step, origin, log, s, v)
    requires s.p + j <= t.frontier && s.frontier <= t.frontier && t.p == if crash then s.p else s.p + j
    ensures Covered(step, origin, log, t, FoldWith(step, v, log[s.p..s.p + j]))
  {
    forall q | t.frontier <= q <= |log|
      ensures FoldWith(step, FoldWith(step, v, log[s.p..s.p + j]), log[t.p..q]) == FoldWith(step, origin, log[..q])
    {
      PublishedCovers(step, v, log, s.p, j, q, crash);
    }
  }

  lemma {:induction false} DrainCovers<S(!new)>(step: (S, Event) -> S, origin: S, log: seq<Event>, s: Progress,
      ticks: seq<Tick>, base: S)
    requires Lawful(step) && Within(log, s) && Visible(log, ticks)
    requires Covered(step, origin, log, s, FoldWith(step, base, s.stream))
    ensures var t := Drain(log, s, ticks); Covered(step, origin, log, t, FoldWith(step, base, t.stream))
    decreases |ticks|
  {
    if ticks != [] {
      AttemptCovers(step, origin, log, s, ticks[0], base, Attempt(log, s, ticks[0]));
      DrainCovers(step, origin, log, Attempt(log, s, ticks[0]), ticks[1..], base);
    }
  }

  lemma {:induction false} StreamFromLog(log: seq<Event>, s: Progress, ticks: seq<Tick>, e: Event)
    requires Within(log, s) && Visible(log, ticks)
    requires e in Drain(log, s, ticks).stream
    ensures e in s.stream || e in log
    decreases |ticks|
  {
    if ticks != [] {
      StreamFromLog(log, Attempt(log, s, ticks[0]), ticks[1..], e);
    }
  }

  /** Drains from one position publish the same rows, whatever went out before. */
  lemma {:induction false} SameStream(log: seq<Event>, s: Progress, u: Progress, ticks: seq<Tick>)
    requires Within(log, s) && Within(log, u) && Visible(log, ticks) && s.p == u.p && s.stream == u.stream
    ensures Drain(log, s, ticks).stream == Drain(log, u, ticks).stream
    ensures Drain(log, s, ticks).p == Drain(log, u, ticks).p
    decreases |ticks|
  {
    if ticks != [] { SameStream(log, Attempt(log, s, ticks[0]), Attempt(log, u, ticks[0]), ticks[1..]); }
  }

  lemma InSlice(log: seq<Event>, from: nat, to: nat, e: Event)
    requires from <= to <= |log| && e in log[from..to]
    ensures exists j :: from <= j < to && log[j] == e
  {
    var k :| 0 <= k < |log[from..to]| && log[from..to][k] == e;
    assert log[from + k] == e;
  }

  /** The stream carries only rows from where it begins. */
  lemma {:induction false} StreamFrom(log: seq<Event>, from: nat, s: Progress, ticks: seq<Tick>, e: Event)
    requires Within(log, s) && Visible(log, ticks) && from <= s.p && e in Drain(log, s, ticks).stream
    ensures e in s.stream || exists j :: from <= j < |log| && log[j] == e
    decreases |ticks|
  {
    if ticks != [] {
      var t := Attempt(log, s, ticks[0]);
      StreamFrom(log, from, t, ticks[1..], e);
      AttemptReach(log, s, ticks[0], t);
      if e in t.stream && e !in s.stream {
        InSlice(log, s.p, s.p + Reach(s, ticks[0]), e);
      }
    }
  }

  /** Committed batches alone drain the rest of the log, each row once. */
  lemma {:induction false} DrainRest(log: seq<Event>, s: Progress) returns (ticks: seq<Tick>)
    requires Within(log, s) && s.p == s.frontier
    ensures Visible(log, ticks) && Drain(log, s, ticks).p == |log|
    ensures Drain(log, s, ticks).stream == s.stream + log[s.p..]
    decreases |log| - s.p
  {
    if s.p == |log| {
      ticks := [];
      assert s.stream + log[s.p..] == s.stream;
    } else {
      var tick := Tick(|log|, None);
      var next := Attempt(log, s, tick);
      var rest := DrainRest(log, next);
      ticks := [tick] + rest;
      assert log[s.p..] == log[s.p..next.p] + log[next.p..];
    }
  }

  /** A committed batch covers every prefix that crashes published before it. */
  lemma {:induction false} FrontierBound(log: seq<Event>, s: Progress, ticks: seq<Tick>, limit: nat)
    requires Within(log, s) && Visible(log, ticks) && limit <= |log|
    requires s.frontier <= s.p + Max(0, Min(BATCH_SIZE, limit - s.p))
    requires Growing(ticks) && forall i :: 0 <= i < |ticks| ==> limit <= ticks[i].visible
    ensures var t := Drain(log, s, ticks);
      var last := if ticks == [] then limit else ticks[|ticks| - 1].visible;
      && t.frontier <= t.p + Max(0, Min(BATCH_SIZE, last - t.p))
      && (ticks != [] && ticks[|ticks| - 1].crash.None? ==> t.p == t.frontier)
    decreases |ticks|
  {
    if ticks != [] {
      var next := Attempt(log, s, ticks[0]);
      FrontierBound(log, next, ticks[1..], ticks[0].visible);
      if |ticks| > 1 {
        assert ticks[1..][|ticks[1..]| - 1] == ticks[|ticks| - 1];
      }
    }
  }

  /** Any lawful projection ends where the log applied once puts it. */
  lemma {:induction false} DrainRefines<S(!new)>(step: (S, Event) -> S, base: S, log: seq<Event>, ticks: seq<Tick>)
    requires Lawful(step) && Visible(log, ticks) && Growing(ticks)
    requires ticks != [] && ticks[|ticks| - 1].crash.None?
    ensures var t := Drain(log, Progress(0, 0, []), ticks);
      FoldWith(step, base, t.stream) == FoldWith(step, base, log[..t.p])
  {
    var s := Progress(0, 0, []);
    assert forall q | 0 <= q <= |log| :: log[0..q] == log[..q];
    DrainCovers(step, base, log, s, ticks, base);
    FrontierBound(log, s, ticks, 0);
    var t := Drain(log, s, ticks);
    assert log[t.p..t.p] == [];
  }

  /**
   Crash-replay refinement. From any client state, after any schedule of batches and crashes
   that ends with a committed batch, the published stream and the committed log up to the
   publisher's position give the same projection: same rows, content, flags and reaction
   sets, same conversation entries.
   */
  lemma {:induction false} CrashReplayRefines(self: UserId, base: View, log: seq<Event>, ticks: seq<Tick>)
    requires Visible(log, ticks) && Growing(ticks)
    requires ticks != [] && ticks[|ticks| - 1].crash.None?
    ensures var t := Drain(log, Progress(0, 0, []), ticks); Fold(self, base, t.stream) == Fold(self, base, log[..t.p])
  {
    StepperLawful(self);
    DrainRefines(Stepper(self), base, log, ticks);
  }

  /**
   From command to screen: run the worker in any way, drain its whole outbox with any
   crashes, and the client of any user shows the database.
   */
  lemma {:induction false} ScreenIsDatabase(bots: map<UserId, bool>, steps: seq<D.Step>, ticks: seq<Tick>, self: UserId)
    requires var log := D.Run(D.Initial(bots), steps).db.outbox;
      && Visible(log, ticks) && Growing(ticks) && ticks != [] && ticks[|ticks| - 1].crash.None?
      && Drain(log, Progress(0, 0, []), ticks).p == |log|
    ensures var db := D.Run(D.Initial(bots), steps).db;
      P.Agrees(db, self, Fold(self, EMPTY, Drain(db.outbox, Progress(0, 0, []), ticks).stream))
  {
    var log := D.Run(D.Initial(bots), steps).db.outbox;
    CrashReplayRefines(self, EMPTY, log, ticks);
    assert log[..|log|] == log;
    P.LogIsState(bots, steps, self);
  }

  // ---------- Bootstrap ----------

  /** List entries never depend on cached rows. */
  lemma {:induction false} EntriesIndependent(self: UserId, x: View, y: View, es: seq<Event>)
    requires x.conversations == y.conversations
    ensures Fold(self, x, es).conversations == Fold(self, y, es).conversations
    decreases |es|
  {
    if es != [] {
      EntriesIndependent(self, Apply(self, x, es[0]), Apply(self, y, es[0]), es[1..]);
    }
  }

  /** The list snapshot GET /conversations returns for `self`. */
  function ListSnapshot(db: A.Db, self: UserId): map<ConversationId, ConversationView> {
    map c | c in db.conversations && P.EntryOf(db, self, c).Some? :: P.EntryOf(db, self, c).value
  }

  lemma {:induction false} SnapshotIsFold(bots: map<UserId, bool>, steps: seq<D.Step>, self: UserId)
    ensures var db := D.Run(D.Initial(bots), steps).db;
      ListSnapshot(db, self) == Fold(self, EMPTY, db.outbox).conversations
  {
    var db := D.Run(D.Initial(bots), steps).db;
    P.LogIsState(bots, steps, self);
    var entries := Fold(self, EMPTY, db.outbox).conversations;
    forall c: nat ensures Get(ListSnapshot(db, self), c) == Get(entries, c) {
      assert Get(Fold(self, EMPTY, db.outbox).conversations, c) == P.EntryOf(db, self, c);
    }
    SameCells(ListSnapshot(db, self), entries);
  }

  /** The barrier over any log: install the entries folded up to the cut, replay from `start`. */
  lemma {:induction false} BarrierOverLog(self: UserId, log: seq<Event>, start: nat, cut: nat, ticks: seq<Tick>,
      installed: View, t: Progress)
    requires start <= cut <= |log| && Visible(log, ticks)
    requires installed.conversations == Fold(self, EMPTY, log[..cut]).conversations
    requires t == Drain(log, Progress(start, cut, []), ticks)
    ensures forall q | t.frontier <= q <= |log| ::
      Fold(self, Fold(self, installed, t.stream), log[t.p..q]).conversations
        == Fold(self, EMPTY, log[..q]).conversations
  {
    var full := Fold(self, EMPTY, log[..cut]);
    StepperLawful(self);
    SubscriptionCovers(Stepper(self), EMPTY, log, cut, start);
    DrainCovers(Stepper(self), EMPTY, log, Progress(start, cut, []), ticks, full);
    EntriesIndependent(self, installed, full, t.stream);
    forall q | t.frontier <= q <= |log|
      ensures Fold(self, Fold(self, installed, t.stream), log[t.p..q]).conversations
           == Fold(self, EMPTY, log[..q]).conversations
    {
      EntriesIndependent(self, Fold(self, installed, t.stream), Fold(self, full, t.stream), log[t.p..q]);
    }
  }

  /**
   Bootstrap barrier. The client subscribes when the publisher is at `start`; the worker runs
   `before` up to the REST cut and `after` beyond it; the list snapshot of the cut is
   installed over any cached rows and the buffered stream is replayed, crash duplicates
   included. Once the replayed stream covers the rows up to some q past the cut, the list
   entries (lastSequence and every member's read watermark) are what the log says at q; at
   the end of the log they are the database's.
   */
  lemma {:induction false} BootstrapBarrier(bots: map<UserId, bool>, before: seq<D.Step>, after: seq<D.Step>,
      self: UserId,
                         start: nat, ticks: seq<Tick>, cached: map<MessageId, RowView>)
    returns (cut: A.Db, end: A.Db, t: Progress, v: View)
    requires start <= |D.Run(D.Initial(bots), before).db.outbox|
    requires Visible(D.Run(D.Initial(bots), before + after).db.outbox, ticks)
    ensures cut == D.Run(D.Initial(bots), before).db && end == D.Run(D.Initial(bots), before + after).db
    ensures cut.outbox <= end.outbox && t == Drain(end.outbox, Progress(start, |cut.outbox|, []), ticks)
    ensures v == Fold(self, View(cached, ListSnapshot(cut, self)), t.stream)
    ensures forall q | t.frontier <= q <= |end.outbox| ::
      Fold(self, v, end.outbox[t.p..q]).conversations == Fold(self, EMPTY, end.outbox[..q]).conversations
    ensures t.p == |end.outbox| ==> v.conversations == ListSnapshot(end, self)
  {
    cut := D.Run(D.Initial(bots), before).db;
    end := D.Run(D.Initial(bots), before + after).db;
    D.RunSplit(D.Initial(bots), before, after);
    D.RunKeeps(D.Initial(bots), before);
    D.RunGrows(D.Run(D.Initial(bots), before), after);
    SnapshotIsFold(bots, before, self);
    SnapshotIsFold(bots, before + after, self);
    t, v := BarrierBetween(self, cut, end, start, ticks, cached);
  }

  lemma {:induction false} BarrierBetween(self: UserId, cut: A.Db, end: A.Db, start: nat, ticks: seq<Tick>,
      cached: map<MessageId, RowView>)
    returns (t: Progress, v: View)
    requires start <= |cut.outbox| && cut.outbox <= end.outbox && Visible(end.outbox, ticks)
    requires ListSnapshot(cut, self) == Fold(self, EMPTY, cut.outbox).conversations
    requires ListSnapshot(end, self) == Fold(self, EMPTY, end.outbox).conversations
    ensures t == Drain(end.outbox, Progress(start, |cut.outbox|, []), ticks)
    ensures v == Fold(self, View(cached, ListSnapshot(cut, self)), t.stream)
    ensures forall q | t.frontier <= q <= |end.outbox| ::
      Fold(self, v, end.outbox[t.p..q]).conversations == Fold(self, EMPTY, end.outbox[..q]).conversations
    ensures t.p == |end.outbox| ==> v.conversations == ListSnapshot(end, self)
  {
    var log := end.outbox;
    t := Drain(log, Progress(start, |cut.outbox|, []), ticks);
    var installed := View(cached, ListSnapshot(cut, self));
    v := Fold(self, installed, t.stream);
    assert log[..|cut.outbox|] == cut.outbox;
    BarrierOverLog(self, log, start, |cut.outbox|, ticks, installed, t);
    if t.p == |log| {
      assert log[t.p..|log|] == [] && log[..|log|] == log;
    }
  }

  /** Subscribing at `start` and cutting at `cut`: the rows in between are replayed over their own effect. */
  lemma {:induction false} SubscriptionCovers<S(!new)>(step: (S, Event) -> S, origin: S, log: seq<Event>, cut: nat,
      start: nat)
    requires Lawful(step) && start <= cut <= |log|
    ensures Covered(step, origin, log, Progress(start, cut, []), FoldWith(step, origin, log[..cut]))
  {
    var early := FoldWith(step, origin, log[..start]);
    assert log[..cut] == log[..start] + log[start..cut];
    FoldWithAppend(step, origin, log[..start], log[start..cut]);
    forall q | cut <= q <= |log|
      ensures FoldWith(step, FoldWith(step, origin, log[..cut]), log[start..q]) == FoldWith(step, origin, log[..q])
    {
      assert log[..q] == log[..start] + log[start..q];
      FoldWithAppend(step, origin, log[..start], log[start..q]);
      PublishedCovers(step, early, log, start, cut - start, q, true);
    }
  }

  /** A batch of two whose first publish fails and whose second is acknowledged. */
  lemma FailThenAck(x: Row, y: Row)
    ensures Marked([x, y], [0, 1], [false, true]) == [x.(attempts := x.attempts + 1), y.(published := true)]
    ensures AckedEvents([x, y], [0, 1], [false, true]) == [y.event]
  {
  }

  lemma {:induction false} FirstBatch(created: Event, edited: Event)
    ensures TableAt([created, edited], 0) == [Row(created, false, 0), Row(edited, false, 0)]
    ensures Select(TableAt([created, edited], 0), {}, 0, BATCH_SIZE) == [0, 1]
  {
    BatchIsSpan([created, edited], 0);
    assert Span(0, 2) == [0, 1];
  }

  lemma {:induction false} RetryBatch(created: Event, edited: Event, retried: seq<Row>)
    requires retried == [Row(created, false, 1), Row(edited, true, 0)]
    ensures Select(retried, {}, 0, BATCH_SIZE) == [0] && AckedEvents(retried, [0], [true]) == [created]
  {
    assert Select(retried, {}, 0, BATCH_SIZE) == [0] + Select(retried, {}, 1, BATCH_SIZE - 1);
    assert Select(retried, {}, 1, BATCH_SIZE - 1) == Select(retried, {}, 2, BATCH_SIZE - 1) == [];
    var once := [true];
    assert once[..0] == [];
  }

  lemma {:induction false} EditBeforeCreate(self: UserId, m: Message, content: string)
    requires !m.edited
    ensures var created, edited := MessageCreated(m), MessageEdited(m.conversationId, m.id, content);
      Fold(self, EMPTY, [edited, created]) != Fold(self, EMPTY, [created, edited])
  {
    var created, edited := MessageCreated(m), MessageEdited(m.conversationId, m.id, content);
    assert [created, edited] == [created] + [edited] && [edited, created] == [edited] + [created];
    FoldLast(self, EMPTY, [created], edited);
    FoldLast(self, EMPTY, [edited], created);
    ApplyAt(self, Fold(self, EMPTY, [created]), edited, m.id, 0);
    ApplyAt(self, EMPTY, created, m.id, 0);
    ApplyAt(self, Fold(self, EMPTY, [edited]), created, m.id, 0);
    FoldLast(self, EMPTY, [], created);
    FoldLast(self, EMPTY, [], edited);
    assert [] + [created] == [created] && [] + [edited] == [edited];
    ApplyAt(self, EMPTY, edited, m.id, 0);
  }

  /**
   What a failed publish can do: it is retried after the rows behind it, so an edit can overtake
   the creation it edits. The client then never shows the edit. Failures has the exact condition.
   */
  lemma {:induction false} OvertakenEditIsLost(self: UserId, m: Message, content: string)
    returns (log: seq<Event>, table: seq<Row>, retried: seq<Row>, stream: seq<Event>)
    requires !m.edited
    ensures log == [MessageCreated(m), MessageEdited(m.conversationId, m.id, content)] && table == TableAt(log, 0)
    ensures Select(table, {}, 0, BATCH_SIZE) == [0, 1] && retried == Marked(table, [0, 1], [false, true])
    ensures Select(retried, {}, 0, BATCH_SIZE) == [0]
    ensures stream == AckedEvents(table, [0, 1], [false, true]) + AckedEvents(retried, [0], [true])
    ensures Fold(self, EMPTY, stream) != Fold(self, EMPTY, log)
  {
    var created, edited := MessageCreated(m), MessageEdited(m.conversationId, m.id, content);
    log := [created, edited];
    table := TableAt(log, 0);
    FirstBatch(created, edited);
    FailThenAck(Row(created, false, 0), Row(edited, false, 0));
    retried := Marked(table, [0, 1], [false, true]);
    RetryBatch(created, edited, retried);
    stream := [edited] + [created];
    EditBeforeCreate(self, m, content);
    assert stream == [edited, created];
  }
}
