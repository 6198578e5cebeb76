/**
 Publishes that fail. A failed row is tried again in a later batch, after rows behind it may
 have gone out. Which schedules still leave clients where the log puts them is decided by the
 last acknowledgement of each row: earlier ones are absorbed.
 */
module Failures {
  import opened Absorption
  import opened CrashReplay
  import opened Domain
  import opened Outbox
  import opened Replay

  // ---------- The order of last acknowledgements ----------

  /** The acknowledged rows, each at its last acknowledgement. */
  function Lasts(acks: seq<nat>): seq<nat> {
    if acks == [] then []
    else if acks[0] in acks[1..] then Lasts(acks[1..])
    else [acks[0]] + Lasts(acks[1..])
  }

  predicate Below(acks: seq<nat>, n: nat) {
    forall k :: 0 <= k < |acks| ==> acks[k] < n
  }

  function Pick(log: seq<Event>, acks: seq<nat>): seq<Event>
    requires Below(acks, |log|)
  {
    seq(|acks|, k requires 0 <= k < |acks| => log[acks[k]])
  }

  lemma {:induction false} LastsMembers(acks: seq<nat>, i: nat)
    ensures i in Lasts(acks) <==> i in acks
  {
    if acks != [] {
      LastsMembers(acks[1..], i);
      assert acks == [acks[0]] + acks[1..];
    }
  }

  lemma {:induction false} LastsWithin(acks: seq<nat>, n: nat)
    requires Below(acks, n)
    ensures Below(Lasts(acks), n)
  {
    forall k | 0 <= k < |Lasts(acks)| ensures Lasts(acks)[k] < n { LastsMembers(acks, Lasts(acks)[k]); }
  }

  predicate Distinct(acks: seq<nat>) {
    forall j, k :: 0 <= j < k < |acks| ==> acks[j] != acks[k]
  }

  lemma {:induction false} LastsDistinct(acks: seq<nat>)
    ensures Distinct(Lasts(acks))
  {
    if acks != [] {
      LastsDistinct(acks[1..]);
      LastsMembers(acks[1..], acks[0]);
    }
  }

  /** Rows that are acknowledged again later leave no trace. */
  lemma {:induction false} LastsAbsorbed(u: seq<nat>, w: seq<nat>)
    requires forall i :: i in u ==> i in w
    ensures Lasts(u + w) == Lasts(w)
  {
    if u == [] {
      assert u + w == w;
    } else {
      assert (u + w)[1..] == u[1..] + w;
      LastsAbsorbed(u[1..], w);
    }
  }

  lemma {:induction false} LastsApart(u: seq<nat>, w: seq<nat>)
    requires Distinct(u) && forall i :: i in u ==> i !in w
    ensures Lasts(u + w) == u + Lasts(w)
  {
    if u == [] {
      assert u + w == w && u + Lasts(w) == Lasts(w);
    } else {
      assert (u + w)[1..] == u[1..] + w;
      LastsApart(u[1..], w);
    }
  }

  lemma {:induction false} LastsSuffix(u: seq<nat>, w: seq<nat>) returns (x: seq<nat>)
    ensures Lasts(u + w) == x + Lasts(w)
  {
    if u == [] {
      assert u + w == w;
      x := [];
    } else {
      assert (u + w)[1..] == u[1..] + w;
      var y := LastsSuffix(u[1..], w);
      x := if u[0] in u[1..] + w then y else [u[0]] + y;
    }
  }

  /** An event that comes again later can be left out before. */
  lemma {:induction false} EarlierAbsorbed<S(!new)>(step: (S, Event) -> S, s: S, e: Event, es: seq<Event>)
    requires Lawful(step) && e in es
    ensures FoldWith(step, step(s, e), es) == FoldWith(step, s, es)
  {
    var k :| 0 <= k < |es| && es[k] == e;
    var b, c := es[..k], es[k + 1..];
    assert es == (b + [e]) + c;
    FoldWithAppend(step, step(s, e), b + [e], c);
    FoldWithAppend(step, s, b + [e], c);
    FoldWithLast(step, step(s, e), b, e);
    FoldWithLast(step, s, b, e);
    LawAcross(step, step(s, e), s, b, e);
  }

  /** Any lawful projection of a stream is that of the last acknowledgements. */
  lemma {:induction false} LastsDecide<S(!new)>(step: (S, Event) -> S, s: S, log: seq<Event>, acks: seq<nat>)
    requires Lawful(step) && Below(acks, |log|)
    ensures Below(Lasts(acks), |log|)
    ensures FoldWith(step, s, Pick(log, acks)) == FoldWith(step, s, Pick(log, Lasts(acks)))
    decreases |acks|
  {
    LastsWithin(acks, |log|);
    if acks != [] {
      var e, rest := log[acks[0]], acks[1..];
      assert Pick(log, acks)[1..] == Pick(log, rest);
      if acks[0] in rest {
        var k :| 0 <= k < |rest| && rest[k] == acks[0];
        assert Pick(log, rest)[k] == e;
        EarlierAbsorbed(step, s, e, Pick(log, rest));
        LastsDecide(step, s, log, rest);
      } else {
        LastsDecide(step, step(s, e), log, rest);
        assert Pick(log, Lasts(acks))[1..] == Pick(log, Lasts(rest));
      }
    }
  }

  /** In log order, every row present: any lawful projection ends where the log applied once puts it. */
  lemma {:induction false} OrderedLastsRefine<S(!new)>(step: (S, Event) -> S, s: S, log: seq<Event>, acks: seq<nat>)
    requires Lawful(step) && Below(acks, |log|) && Lasts(acks) == Span(0, |log|)
    ensures FoldWith(step, s, Pick(log, acks)) == FoldWith(step, s, log)
  {
    LastsDecide(step, s, log, acks);
    assert Pick(log, Span(0, |log|)) == log;
  }

  // ---------- Out of order, some log is misread ----------

  /** An event no web client shows anything of. */
  const NEUTRAL := ReceiptDelivered(0, 0, 0, 0)

  const FIRST := Message(0, 0, 0, 0, UserSender, 1, Text, "first", None, 0, false, false)

  /** x at position p, y at position q, nothing to see elsewhere. */
  function TwoAt(n: nat, p: nat, x: Event, q: nat, y: Event): seq<Event> {
    seq(n, k => if k == p then x else if k == q then y else NEUTRAL)
  }

  function Nothing(n: nat): seq<Event> {
    seq(n, _ => NEUTRAL)
  }

  lemma {:induction false} NothingShown(self: UserId, v: View, n: nat)
    ensures Fold(self, v, Nothing(n)) == v
  {
    if n != 0 {
      var u := Apply(self, v, NEUTRAL);
      assert u.rows == v.rows && u.conversations == v.conversations;
      assert Nothing(n)[1..] == Nothing(n - 1);
      NothingShown(self, v, n - 1);
    }
  }

  lemma {:induction false} OneShown(self: UserId, v: View, n: nat, p: nat, x: Event)
    requires p < n
    ensures Fold(self, v, TwoAt(n, p, x, p, x)) == Apply(self, v, x)
  {
    assert TwoAt(n, p, x, p, x) == Nothing(p) + ([x] + Nothing(n - p - 1));
    FoldAppend(self, v, Nothing(p), [x] + Nothing(n - p - 1));
    NothingShown(self, v, p);
    NothingShown(self, Apply(self, v, x), n - p - 1);
    assert ([x] + Nothing(n - p - 1))[1..] == Nothing(n - p - 1);
  }

  lemma {:induction false} TwoShown(self: UserId, n: nat, p: nat, x: Event, q: nat, y: Event)
    requires p < q < n
    ensures Fold(self, EMPTY, TwoAt(n, p, x, q, y)) == Fold(self, EMPTY, [x, y])
  {
    var front, back := TwoAt(p + 1, p, x, p, x), TwoAt(n - p - 1, q - p - 1, y, q - p - 1, y);
    assert TwoAt(n, p, x, q, y) == front + back;
    FoldAppend(self, EMPTY, front, back);
    OneShown(self, EMPTY, p + 1, p, x);
    OneShown(self, Apply(self, EMPTY, x), n - p - 1, q - p - 1, y);
    FoldTwo(self, x, y);
  }

  lemma {:induction false} FoldTwo(self: UserId, x: Event, y: Event)
    ensures Fold(self, EMPTY, [x, y]) == Apply(self, Apply(self, EMPTY, x), y)
  {
    assert [x, y] == [x] + [y] && [x] == [] + [x];
    FoldLast(self, EMPTY, [x], y);
    FoldLast(self, EMPTY, [], x);
  }

  /** A row never acknowledged: the message it announces is missing. */
  lemma {:induction false} MissingShows(self: UserId, n: nat, acks: seq<nat>, i: nat)
    requires Below(acks, n) && i < n && i !in acks
    ensures exists log | |log| == n :: Fold(self, EMPTY, Pick(log, acks)) != Fold(self, EMPTY, log)
  {
    var created := MessageCreated(FIRST);
    var log := TwoAt(n, i, created, i, created);
    assert Pick(log, acks) == Nothing(|acks|) by {
      forall k | 0 <= k < |acks| ensures Pick(log, acks)[k] == NEUTRAL { assert acks[k] in acks; }
    }
    NothingShown(self, EMPTY, |acks|);
    OneShown(self, EMPTY, n, i, created);
    ApplyAt(self, EMPTY, created, FIRST.id, 0);
  }

  /** Two last acknowledgements against the log: an edit goes out before the creation it edits. */
  lemma {:induction false} InversionShows(self: UserId, n: nat, acks: seq<nat>, a: nat, b: nat)
    requires Below(acks, n) && a < b < |Lasts(acks)| && Lasts(acks)[b] < Lasts(acks)[a]
    ensures exists log | |log| == n :: Fold(self, EMPTY, Pick(log, acks)) != Fold(self, EMPTY, log)
  {
    var d := Lasts(acks);
    var created, edited := MessageCreated(FIRST), MessageEdited(0, FIRST.id, "second");
    LastsDistinct(acks);
    LastsWithin(acks, n);
    var log := TwoAt(n, d[b], created, d[a], edited);
    StepperLawful(self);
    LastsDecide(Stepper(self), EMPTY, log, acks);
    assert Pick(log, d) == TwoAt(|d|, a, edited, b, created);
    TwoShown(self, |d|, a, edited, b, created);
    TwoShown(self, n, d[b], created, d[a], edited);
    EditBeforeCreate(self, FIRST, "second");
  }

  /** Increasing, and every number below n: 0, 1, ..., n - 1. */
  lemma {:induction false} SortedIsSpan(d: seq<nat>, n: nat, k: nat)
    requires Below(d, n) && (forall i :: 0 <= i < n ==> i in d) && k < n
    requires forall a, b :: 0 <= a < b < |d| ==> d[a] < d[b]
    ensures k < |d| && d[k] == k
    decreases k
  {
    assert k in d;
    var p :| 0 <= p < |d| && d[p] == k;
    if k > 0 { SortedIsSpan(d, n, k - 1); }
  }

  lemma {:induction false} SortedFrom(d: seq<nat>, a: nat, b: nat)
    requires forall i, j :: 0 <= i < j < |d| ==> d[i] < d[j]
    requires a <= b < |d|
    ensures d[a] + (b - a) <= d[b]
    decreases b - a
  {
    if a < b { SortedFrom(d, a + 1, b); }
  }

  lemma {:induction false} SpanOrInversion(d: seq<nat>, n: nat) returns (a: nat, b: nat)
    requires Below(d, n) && Distinct(d) && d != Span(0, n) && forall i :: 0 <= i < n ==> i in d
    ensures a < b < |d| && d[b] < d[a]
  {
    if forall a, b :: 0 <= a < b < |d| ==> d[a] < d[b] { AllSorted(d, n); }
    a, b :| 0 <= a < b < |d| && d[b] < d[a];
  }

  lemma {:induction false} AllSorted(d: seq<nat>, n: nat)
    requires Below(d, n) && (forall i :: 0 <= i < n ==> i in d)
    requires forall a, b :: 0 <= a < b < |d| ==> d[a] < d[b]
    ensures d == Span(0, n)
  {
    forall k | 0 <= k < n ensures k < |d| && d[k] == k { SortedIsSpan(d, n, k); }
    if n > 0 { SortedIsSpan(d, n, n - 1); }
    if |d| > 0 { SortedFrom(d, 0, |d| - 1); }
  }

  /**
   Which acknowledgements serve every log, exactly: those in which every row occurs and the last
   acknowledgements of the rows stand in log order. First acknowledgements do not matter.
   */
  lemma {:induction false} AcksServeExactly(self: UserId, n: nat, acks: seq<nat>)
    requires Below(acks, n)
    ensures (forall log | |log| == n :: Fold(self, EMPTY, Pick(log, acks)) == Fold(self, EMPTY, log))
      <==> Lasts(acks) == Span(0, n)
  {
    if Lasts(acks) == Span(0, n) {
      StepperLawful(self);
      forall log | |log| == n ensures Fold(self, EMPTY, Pick(log, acks)) == Fold(self, EMPTY, log) {
        OrderedLastsRefine(Stepper(self), EMPTY, log, acks);
      }
    } else if i :| 0 <= i < n && i !in acks {
      MissingShows(self, n, acks, i);
    } else {
      forall i | 0 <= i < n ensures i in Lasts(acks) { LastsMembers(acks, i); }
      LastsDistinct(acks);
      LastsWithin(acks, n);
      var a, b := SpanOrInversion(Lasts(acks), n);
      InversionShows(self, n, acks, a, b);
    }
  }

  /** First acknowledgements in log order are not enough: here row 0 is acknowledged first, and again after row 1. */
  lemma {:induction false} FirstOrderIsNotEnough(self: UserId)
    ensures var acks: seq<nat> := [0, 1, 1, 0];
      Lasts(acks) == [1, 0] && exists log | |log| == 2 :: Fold(self, EMPTY, Pick(log, acks)) != Fold(self, EMPTY, log)
  {
    var acks: seq<nat> := [0, 1, 1, 0];
    assert acks[1..] == [1, 1, 0] && acks[1..][1..] == [1, 0] && acks[1..][1..][1..] == [0];
    InversionShows(self, 2, acks, 0, 1);
  }

  // ---------- Schedules of batches ----------

  /** The rows visible to the SELECT, the outcomes of the publishes attempted, and whether the batch was lost. */
  datatype Try = Try(visible: nat, results: seq<bool>, crash: bool)

  function BatchOf(rows: seq<Row>, t: Try): (batch: seq<nat>)
    requires t.visible <= |rows|
    ensures InTable(rows, batch)
  {
    Select(rows[..t.visible], {}, 0, BATCH_SIZE)
  }

  /** A batch that was not lost attempted all its rows. */
  predicate Fits(rows: seq<Row>, t: Try) {
    && t.visible <= |rows|
    && |t.results| <= |BatchOf(rows, t)|
    && (!t.crash ==> |t.results| == |BatchOf(rows, t)|)
  }

  function TableAfter(rows: seq<Row>, t: Try): (after: seq<Row>)
    requires Fits(rows, t)
    ensures |after| == |rows|
  {
    if t.crash then rows else Marked(rows, BatchOf(rows, t), t.results)
  }

  predicate AllFit(rows: seq<Row>, tries: seq<Try>)
    decreases |tries|
  {
    tries == [] || (Fits(rows, tries[0]) && AllFit(TableAfter(rows, tries[0]), tries[1..]))
  }

  function FinalTable(rows: seq<Row>, tries: seq<Try>): (after: seq<Row>)
    requires AllFit(rows, tries)
    ensures |after| == |rows|
    decreases |tries|
  {
    if tries == [] then rows else FinalTable(TableAfter(rows, tries[0]), tries[1..])
  }

  /** What the broker carries. */
  function Stream(rows: seq<Row>, tries: seq<Try>): seq<Event>
    requires AllFit(rows, tries)
    decreases |tries|
  {
    if tries == [] then []
    else AckedEvents(rows, BatchOf(rows, tries[0]), tries[0].results) + Stream(TableAfter(rows, tries[0]), tries[1..])
  }

  predicate AllPublished(rows: seq<Row>) {
    forall i :: 0 <= i < |rows| ==> rows[i].published
  }

  /** In a batch that is not lost, no row is acknowledged after one before it failed. */
  predicate InOrder(t: Try) {
    t.crash || forall a, b :: 0 <= a < b < |t.results| && t.results[b] ==> t.results[a]
  }

  predicate NoOvertaking(tries: seq<Try>) {
    forall t :: t in tries ==> InOrder(t)
  }

  // ---------- A schedule does not depend on what the rows say ----------

  function AckedRows(batch: seq<nat>, results: seq<bool>): seq<nat>
    requires |results| <= |batch|
    decreases |results|
  {
    if results == [] then []
    else
      var k := |results| - 1;
      AckedRows(batch, results[..k]) + if results[k] then [batch[k]] else []
  }

  function Acks(rows: seq<Row>, tries: seq<Try>): seq<nat>
    requires AllFit(rows, tries)
    decreases |tries|
  {
    if tries == [] then []
    else AckedRows(BatchOf(rows, tries[0]), tries[0].results) + Acks(TableAfter(rows, tries[0]), tries[1..])
  }

  predicate SameFlags(a: seq<Row>, b: seq<Row>) {
    |a| == |b| && forall i :: 0 <= i < |a| ==> a[i].published == b[i].published && a[i].attempts == b[i].attempts
  }

  lemma {:induction false} SelectSame(a: seq<Row>, b: seq<Row>, from: nat, limit: nat)
    requires SameFlags(a, b) && from <= |a|
    ensures Select(a, {}, from, limit) == Select(b, {}, from, limit)
    decreases |a| - from
  {
    if from < |a| && limit != 0 { SelectSame(a, b, from + 1, if Eligible(a[from]) then limit - 1 else limit); }
  }

  lemma {:induction false} MarkedSame(a: seq<Row>, b: seq<Row>, batch: seq<nat>, results: seq<bool>)
    requires SameFlags(a, b) && |results| <= |batch| && InTable(a, batch)
    ensures SameFlags(Marked(a, batch, results), Marked(b, batch, results))
    decreases |results|
  {
    if results != [] { MarkedSame(a, b, batch, results[..|results| - 1]); }
  }

  lemma {:induction false} AcksSame(a: seq<Row>, b: seq<Row>, tries: seq<Try>)
    requires SameFlags(a, b) && AllFit(a, tries)
    ensures AllFit(b, tries) && Acks(a, tries) == Acks(b, tries)
    ensures SameFlags(FinalTable(a, tries), FinalTable(b, tries))
    decreases |tries|
  {
    if tries != [] {
      var t := tries[0];
      SelectSame(a[..t.visible], b[..t.visible], 0, BATCH_SIZE);
      MarkedSame(a, b, BatchOf(a, t), t.results);
      AcksSame(TableAfter(a, t), TableAfter(b, t), tries[1..]);
    }
  }

  lemma {:induction false} AckedRowsWithin(batch: seq<nat>, results: seq<bool>)
    requires |results| <= |batch|
    ensures forall i :: i in AckedRows(batch, results) ==> i in batch
    decreases |results|
  {
    if results != [] { AckedRowsWithin(batch, results[..|results| - 1]); }
  }

  lemma {:induction false} AcksWithin(rows: seq<Row>, tries: seq<Try>)
    requires AllFit(rows, tries)
    ensures Below(Acks(rows, tries), |rows|)
    decreases |tries|
  {
    if tries != [] {
      var batch := BatchOf(rows, tries[0]);
      AckedRowsWithin(batch, tries[0].results);
      AcksWithin(TableAfter(rows, tries[0]), tries[1..]);
      forall k | 0 <= k < |Acks(rows, tries)| ensures Acks(rows, tries)[k] < |rows| {
        var i := Acks(rows, tries)[k];
        assert i in AckedRows(batch, tries[0].results) || i in Acks(TableAfter(rows, tries[0]), tries[1..]);
      }
    }
  }

  lemma {:induction false} AckedIsPick(rows: seq<Row>, log: seq<Event>, batch: seq<nat>, results: seq<bool>)
    requires EventsOf(rows) == log && |results| <= |batch| && InTable(rows, batch)
    ensures Below(AckedRows(batch, results), |log|)
    ensures AckedEvents(rows, batch, results) == Pick(log, AckedRows(batch, results))
    decreases |results|
  {
    if results != [] {
      var k := |results| - 1;
      AckedIsPick(rows, log, batch, results[..k]);
      assert log[batch[k]] == rows[batch[k]].event;
    }
  }

  lemma {:induction false} EventsKept(rows: seq<Row>, t: Try)
    requires Fits(rows, t)
    ensures EventsOf(TableAfter(rows, t)) == EventsOf(rows)
  {
    if !t.crash {
      forall i | 0 <= i < |rows| ensures TableAfter(rows, t)[i].event == rows[i].event {
        EventsStay(rows, BatchOf(rows, t), t.results, i);
      }
    }
  }

  lemma {:induction false} StreamIsPick(rows: seq<Row>, log: seq<Event>, tries: seq<Try>)
    requires EventsOf(rows) == log && AllFit(rows, tries)
    ensures Below(Acks(rows, tries), |log|) && Stream(rows, tries) == Pick(log, Acks(rows, tries))
    decreases |tries|
  {
    AcksWithin(rows, tries);
    if tries != [] {
      var t := tries[0];
      EventsKept(rows, t);
      AckedIsPick(rows, log, BatchOf(rows, t), t.results);
      StreamIsPick(TableAfter(rows, t), log, tries[1..]);
    }
  }

  // ---------- Rows of a schedule over time ----------

  /** What one try does to row i: a published row stays so and is not attempted; attempts never go down. */
  lemma {:induction false} RowAfter(rows: seq<Row>, t: Try, i: nat)
    requires Fits(rows, t) && i < |rows|
    ensures !Eligible(rows[i]) ==> TableAfter(rows, t)[i] == rows[i] && i !in AckedRows(BatchOf(rows, t), t.results)
    ensures TableAfter(rows, t)[i].published && !rows[i].published ==> i in AckedRows(BatchOf(rows, t), t.results)
    ensures forall k :: 0 <= k < |t.results| && !t.crash && BatchOf(rows, t)[k] == i ==>
      (TableAfter(rows, t)[i].published <==> t.results[k])
  {
    var batch := BatchOf(rows, t);
    MarkedAt(rows, batch, t.results, i);
    AckedRowsWithin(batch, t.results);
    forall k | 0 <= k < |batch|
      ensures Eligible(rows[batch[k]])
    {
      assert rows[..t.visible][batch[k]] == rows[batch[k]];
    }
    if k :| 0 <= k < |t.results| && batch[k] == i { AckedAt(batch, t.results, k); }
  }

  lemma {:induction false} AckedAt(batch: seq<nat>, results: seq<bool>, k: nat)
    requires k < |results| <= |batch|
    ensures results[k] ==> batch[k] in AckedRows(batch, results)
    decreases |results|
  {
    var n := |results| - 1;
    if k < n { AckedAt(batch, results[..n], k); }
  }

  /** A row that is not eligible, published or parked, is never acknowledged again and never changes. */
  lemma {:induction false} DoneForGood(rows: seq<Row>, tries: seq<Try>, i: nat)
    requires AllFit(rows, tries) && i < |rows| && !Eligible(rows[i])
    ensures i !in Acks(rows, tries) && FinalTable(rows, tries)[i] == rows[i]
    decreases |tries|
  {
    if tries != [] {
      RowAfter(rows, tries[0], i);
      DoneForGood(TableAfter(rows, tries[0]), tries[1..], i);
    }
  }

  /** A row that ends published was acknowledged. */
  lemma {:induction false} PublishedIsAcked(rows: seq<Row>, tries: seq<Try>, i: nat)
    requires AllFit(rows, tries) && i < |rows| && !rows[i].published && FinalTable(rows, tries)[i].published
    ensures i in Acks(rows, tries)
    decreases |tries|
  {
    if tries != [] {
      RowAfter(rows, tries[0], i);
      if !TableAfter(rows, tries[0])[i].published { PublishedIsAcked(TableAfter(rows, tries[0]), tries[1..], i); }
    }
  }

  // ---------- Without overtaking, last acknowledgements are in order ----------

  /** The number of leading successes. */
  function Successes(results: seq<bool>): nat {
    if results == [] || !results[0] then 0 else 1 + Successes(results[1..])
  }

  lemma {:induction false} OnlyLeading(results: seq<bool>)
    requires forall a, b :: 0 <= a < b < |results| && results[b] ==> results[a]
    ensures Successes(results) <= |results|
    ensures forall k :: 0 <= k < |results| ==> (results[k] <==> k < Successes(results))
  {
    if results != [] && results[0] { OnlyLeading(results[1..]); }
  }

  lemma {:induction false} LeadingRows(p: nat, m: nat, results: seq<bool>, s: nat)
    requires |results| <= m && s <= |results| && forall k :: 0 <= k < |results| ==> (results[k] <==> k < s)
    ensures AckedRows(Span(p, m), results) == Span(p, s)
    decreases |results|
  {
    if results != [] {
      var n := |results| - 1;
      LeadingRows(p, m, results[..n], if s <= n then s else n);
      if s > n { assert Span(p, s) == Span(p, n) + [p + n]; }
    }
  }

  /** Exactly the rows before p are published. */
  predicate PublishedTo(rows: seq<Row>, p: nat) {
    p <= |rows| && forall i :: 0 <= i < |rows| ==> (rows[i].published <==> i < p)
  }

  /** Nothing is parked if everything ends published, so the batch is the next stretch of rows. */
  lemma {:induction false} BatchIsNext(rows: seq<Row>, p: nat, tries: seq<Try>)
    requires tries != [] && AllFit(rows, tries) && PublishedTo(rows, p) && AllPublished(FinalTable(rows, tries))
    ensures var m: nat := if tries[0].visible <= p then 0 else Min(BATCH_SIZE, tries[0].visible - p);
      BatchOf(rows, tries[0]) == Span(p, m)
  {
    var t := tries[0];
    forall i | 0 <= i < |rows| ensures Eligible(rows[i]) <==> p <= i {
      if p <= i && !Eligible(rows[i]) { DoneForGood(rows, tries, i); }
    }
    var seen := rows[..t.visible];
    if p <= t.visible { SelectSpan(seen, p, BATCH_SIZE); } else { SelectNothing(seen, 0, BATCH_SIZE); }
  }

  lemma {:induction false} SelectNothing(rows: seq<Row>, from: nat, limit: nat)
    requires from <= |rows| && forall i :: 0 <= i < |rows| ==> !Eligible(rows[i])
    ensures Select(rows, {}, from, limit) == []
    decreases |rows| - from
  {
    if from < |rows| && limit != 0 { SelectNothing(rows, from + 1, limit); }
  }

  /** The rows one committed batch publishes. */
  lemma {:induction false} CommittedStretch(rows: seq<Row>, p: nat, t: Try, m: nat, s: nat)
    requires Fits(rows, t) && !t.crash && PublishedTo(rows, p) && BatchOf(rows, t) == Span(p, m)
    requires s <= |t.results| && forall k :: 0 <= k < |t.results| ==> (t.results[k] <==> k < s)
    ensures PublishedTo(TableAfter(rows, t), p + s)
  {
    var batch := BatchOf(rows, t);
    if s > 0 { assert batch[s - 1] == p + s - 1; }
    forall i | 0 <= i < |rows| ensures TableAfter(rows, t)[i].published <==> i < p + s {
      MarkedAt(rows, batch, t.results, i);
      if p <= i < p + m { assert batch[i - p] == i; }
    }
  }

  lemma {:induction false} SpanMembers(p: nat, n: nat)
    ensures forall i: nat :: i in Span(p, n) <==> p <= i < p + n
  {
    forall i: nat ensures i in Span(p, n) <==> p <= i < p + n {
      if p <= i < p + n { assert Span(p, n)[i - p] == i; }
    }
  }

  lemma {:induction false} OrderKept(rows: seq<Row>, tries: seq<Try>, p: nat)
    requires AllFit(rows, tries) && PublishedTo(rows, p) && AllPublished(FinalTable(rows, tries)) && NoOvertaking(tries)
    ensures Lasts(Acks(rows, tries)) == Span(p, |rows| - p)
    ensures forall i :: i in Acks(rows, tries) ==> p <= i
    decreases |tries|
  {
    if tries == [] {
      if rows != [] { assert rows[|rows| - 1].published; }
    } else {
      var t, rest := tries[0], tries[1..];
      BatchIsNext(rows, p, tries);
      var batch := BatchOf(rows, t);
      var acked := AckedRows(batch, t.results);
      AckedRowsWithin(batch, t.results);
      assert forall x :: x in rest ==> x in tries;
      if t.crash {
        OrderKept(rows, rest, p);
        StretchReplayed(acked, batch, Acks(rows, rest), p, |rows|);
      } else {
        assert InOrder(t);
        OnlyLeading(t.results);
        OrderCommitted(rows, tries, p, Successes(t.results));
      }
    }
  }

  lemma {:induction false} StretchReplayed(u: seq<nat>, batch: seq<nat>, w: seq<nat>, p: nat, n: nat)
    requires p <= n && Lasts(w) == Span(p, n - p) && forall i :: i in w ==> p <= i
    requires batch == Span(p, |batch|) && p + |batch| <= n && forall i :: i in u ==> i in batch
    ensures Lasts(u + w) == Lasts(w) && forall i :: i in u + w ==> p <= i
  {
    SpanMembers(p, |batch|);
    SpanMembers(p, n - p);
    forall i | i in u ensures i in w { LastsMembers(w, i); }
    LastsAbsorbed(u, w);
  }

  lemma {:induction false} OrderCommitted(rows: seq<Row>, tries: seq<Try>, p: nat, s: nat)
    requires tries != [] && AllFit(rows, tries) && PublishedTo(rows, p) && AllPublished(FinalTable(rows, tries))
    requires NoOvertaking(tries[1..]) && !tries[0].crash && s <= |tries[0].results|
    requires BatchOf(rows, tries[0]) == Span(p, |tries[0].results|)
    requires forall k :: 0 <= k < |tries[0].results| ==> (tries[0].results[k] <==> k < s)
    ensures Lasts(Acks(rows, tries)) == Span(p, |rows| - p)
    ensures forall i :: i in Acks(rows, tries) ==> p <= i
    decreases |tries|, 0
  {
    var t, rest := tries[0], tries[1..];
    var after := TableAfter(rows, t);
    CommittedStretch(rows, p, t, |t.results|, s);
    LeadingRows(p, |t.results|, t.results, s);
    OrderKept(after, rest, p + s);
    StretchInFront(Acks(after, rest), p, s, |rows|);
  }

  lemma {:induction false} StretchInFront(w: seq<nat>, p: nat, s: nat, n: nat)
    requires p + s <= n && Lasts(w) == Span(p + s, n - (p + s)) && forall i :: i in w ==> p + s <= i
    ensures Lasts(Span(p, s) + w) == Span(p, n - p)
    ensures forall i :: i in Span(p, s) + w ==> p <= i
  {
    SpanMembers(p, s);
    LastsApart(Span(p, s), w);
    assert Span(p, n - p) == Span(p, s) + Span(p + s, n - (p + s));
  }

  // ---------- Overtaking puts a last acknowledgement out of order ----------

  /** Some row j is acknowledged for the last time before an earlier row i is. */
  lemma {:induction false} Overtaken(rows: seq<Row>, tries: seq<Try>) returns (u: seq<nat>, w: seq<nat>, i: nat, j: nat)
    requires AllFit(rows, tries) && AllPublished(FinalTable(rows, tries)) && !NoOvertaking(tries)
    ensures Acks(rows, tries) == u + w && i < j < |rows| && i in w && j !in w
    decreases |tries|
  {
    var t, rest := tries[0], tries[1..];
    var batch, after := BatchOf(rows, t), TableAfter(rows, t);
    if InOrder(t) {
      assert tries == [t] + rest;
      var u0, w0, i0, j0 := Overtaken(after, rest);
      u, w, i, j := AckedRows(batch, t.results) + u0, w0, i0, j0;
      assert Acks(rows, tries) == AckedRows(batch, t.results) + (u0 + w0);
    } else {
      var a, b :| 0 <= a < b < |t.results| && t.results[b] && !t.results[a];
      u, w, i, j := AckedRows(batch, t.results), Acks(after, rest), batch[a], batch[b];
      RowAfter(rows, t, i);
      RowAfter(rows, t, j);
      PublishedIsAcked(after, rest, i);
      DoneForGood(after, rest, j);
    }
  }

  lemma {:induction false} OrderBroken(u: seq<nat>, w: seq<nat>, n: nat, i: nat, j: nat)
    requires i < j < n && i in w && j !in w
    ensures Lasts(u + w) != Span(0, n)
  {
    var x := LastsSuffix(u, w);
    LastsMembers(w, i);
    LastsMembers(w, j);
    if Lasts(u + w) == Span(0, n) { SuffixHasLater(x, Lasts(w), n, i, j); }
  }

  lemma {:induction false} SuffixHasLater(x: seq<nat>, y: seq<nat>, n: nat, i: nat, j: nat)
    requires x + y == Span(0, n) && i in y && i < j < n
    ensures j in y
  {
    var k :| 0 <= k < |y| && y[k] == i;
    assert (x + y)[|x| + k] == Span(0, n)[|x| + k] == |x| + k;
    assert y[j - |x|] == (x + y)[j] == Span(0, n)[j];
  }

  // ---------- Main result ----------

  /** Over this log the schedule leaves the client of `self` where the log applied once would. */
  ghost predicate Serves(self: UserId, log: seq<Event>, tries: seq<Try>) {
    AllFit(TableAt(log, 0), tries) && Fold(self, EMPTY, Stream(TableAt(log, 0), tries)) == Fold(self, EMPTY, log)
  }

  /**
   When failed publishes are harmless, exactly. For every schedule of batches, with publishes
   that fail and crashes that roll a batch back, that ends with every row published: the stream
   and the log applied once give one projection, whatever the rows say, if and only if in no
   batch that committed was a row acknowledged after one before it had failed.
   */
  lemma {:induction false} FailuresServeExactly(self: UserId, any: seq<Event>, tries: seq<Try>)
    requires AllFit(TableAt(any, 0), tries) && AllPublished(FinalTable(TableAt(any, 0), tries))
    ensures (forall log | |log| == |any| :: Serves(self, log, tries)) <==> NoOvertaking(tries)
  {
    var rows, n := TableAt(any, 0), |any|;
    var acks := Acks(rows, tries);
    AcksWithin(rows, tries);
    forall log | |log| == n
      ensures AllFit(TableAt(log, 0), tries) && Stream(TableAt(log, 0), tries) == Pick(log, acks)
    {
      AcksSame(rows, TableAt(log, 0), tries);
      assert EventsOf(TableAt(log, 0)) == log;
      StreamIsPick(TableAt(log, 0), log, tries);
    }
    AcksServeExactly(self, n, acks);
    if NoOvertaking(tries) {
      OrderKept(rows, tries, 0);
    } else {
      var u, w, i, j := Overtaken(rows, tries);
      OrderBroken(u, w, n, i, j);
    }
  }
}
