/**
 The transactional outbox publisher: which rows a batch selects, what one batch does to
 the table and to the broker when it commits or crashes, and what several replicas
 holding disjoint row locks can never lose or over-publish.
 */
module Outbox {
  import opened Domain

  const BATCH_SIZE := 50
  const MAX_ATTEMPTS := 10

  /** OutboxEvent row; the table is kept in createdAt order. */
  datatype Row = Row(event: Event, published: bool, attempts: nat)

  predicate Eligible(r: Row) {
    !r.published && r.attempts < MAX_ATTEMPTS
  }

  predicate Parked(r: Row) {
    !r.published && r.attempts == MAX_ATTEMPTS
  }

  /** ORDER BY createdAt LIMIT limit FOR UPDATE SKIP LOCKED, from table position `from`. */
  function Select(rows: seq<Row>, locked: set<nat>, from: nat, limit: nat): (batch: seq<nat>)
    requires from <= |rows|
    ensures |batch| <= limit
    ensures forall k :: 0 <= k < |batch| ==>
      from <= batch[k] < |rows| && Eligible(rows[batch[k]]) && batch[k] !in locked
    ensures forall j, k :: 0 <= j < k < |batch| ==> batch[j] < batch[k]
    decreases |rows| - from
  {
    if from == |rows| || limit == 0 then []
    else if Eligible(rows[from]) && from !in locked then [from] + Select(rows, locked, from + 1, limit - 1)
    else Select(rows, locked, from + 1, limit)
  }

  /** First come, first served: an eligible free row is left out only when the batch is full of older ones. */
  lemma {:induction false} SelectsOldest(rows: seq<Row>, locked: set<nat>, from: nat, limit: nat, i: nat)
    requires from <= i < |rows| && Eligible(rows[i]) && i !in locked && i !in Select(rows, locked, from, limit)
    ensures var batch := Select(rows, locked, from, limit);
      |batch| == limit && forall k :: 0 <= k < |batch| ==> batch[k] < i
    decreases |rows| - from
  {
    if limit != 0 {
      var rest := if Eligible(rows[from]) && from !in locked then limit - 1 else limit;
      if from < i { SelectsOldest(rows, locked, from + 1, rest, i); }
    }
  }

  /** publishOne's update of its row: publishedAt after an ack, one more attempt after a failure. */
  function Mark(rows: seq<Row>, i: nat, acked: bool): seq<Row>
    requires i < |rows|
  {
    rows[i := if acked then rows[i].(published := true) else rows[i].(attempts := rows[i].attempts + 1)]
  }

  predicate InTable(rows: seq<Row>, batch: seq<nat>) {
    forall k :: 0 <= k < |batch| ==> batch[k] < |rows|
  }

  /** The table after the first |results| rows of the batch were attempted. */
  function Marked(rows: seq<Row>, batch: seq<nat>, results: seq<bool>): (after: seq<Row>)
    requires |results| <= |batch| && InTable(rows, batch)
    ensures |after| == |rows|
    decreases |results|
  {
    if results == [] then rows
    else
      var k := |results| - 1;
      Mark(Marked(rows, batch, results[..k]), batch[k], results[k])
  }

  /** The events the broker acknowledged among the first |results| rows of the batch. */
  function AckedEvents(rows: seq<Row>, batch: seq<nat>, results: seq<bool>): seq<Event>
    requires |results| <= |batch| && InTable(rows, batch)
    decreases |results|
  {
    if results == [] then []
    else
      var k := |results| - 1;
      AckedEvents(rows, batch, results[..k]) + (if results[k] then [rows[batch[k]].event] else [])
  }

  /** One more attempted row. */
  lemma {:induction false} MarkedNext(rows: seq<Row>, batch: seq<nat>, results: seq<bool>, k: nat)
    requires k < |results| <= |batch| && InTable(rows, batch)
    ensures Marked(rows, batch, results[..k + 1]) == Mark(Marked(rows, batch, results[..k]), batch[k], results[k])
    ensures AckedEvents(rows, batch, results[..k + 1])
         == AckedEvents(rows, batch, results[..k]) + (if results[k] then [rows[batch[k]].event] else [])
    ensures Marked(rows, batch, results[..k])[batch[k]].event == rows[batch[k]].event
  {
    assert results[..k + 1][..k] == results[..k];
    EventsStay(rows, batch, results[..k], batch[k]);
  }

  lemma {:induction false} EventsStay(rows: seq<Row>, batch: seq<nat>, results: seq<bool>, i: nat)
    requires |results| <= |batch| && InTable(rows, batch) && i < |rows|
    ensures Marked(rows, batch, results)[i].event == rows[i].event
    decreases |results|
  {
    if results != [] { EventsStay(rows, batch, results[..|results| - 1], i); }
  }

  /** processBatch of one replica over the table, with the broker's acknowledged publishes as a stream. */
  class OutboxPublisher {
    var rows: seq<Row>
    var stream: seq<Event>

    constructor (rows: seq<Row>)
      ensures this.rows == rows && stream == []
    {
      this.rows := rows;
      stream := [];
    }

    /**
     `results[k]` says whether the k-th publish is acknowledged; a crash stops the batch after
     |results| publishes and the transaction rolls back, while what was published stays published.
     */
    method ProcessBatch(results: seq<bool>, crash: bool) returns (processed: nat)
      requires |results| <= |Select(rows, {}, 0, BATCH_SIZE)|
      requires !crash ==> |results| == |Select(rows, {}, 0, BATCH_SIZE)|
      modifies this
      ensures processed == |Select(old(rows), {}, 0, BATCH_SIZE)|
      ensures stream == old(stream) + AckedEvents(old(rows), Select(old(rows), {}, 0, BATCH_SIZE), results)
      ensures rows == if crash then old(rows) else Marked(old(rows), Select(old(rows), {}, 0, BATCH_SIZE), results)
    {
      var batch := Select(rows, {}, 0, BATCH_SIZE);
      var tx := rows;
      var k := 0;
      while k < |results|
        invariant 0 <= k <= |results|
        invariant rows == old(rows)
        invariant tx == Marked(rows, batch, results[..k])
        invariant stream == old(stream) + AckedEvents(rows, batch, results[..k])
      {
        MarkedNext(rows, batch, results, k);
        if results[k] {
          stream := stream + [rows[batch[k]].event];
          tx := tx[batch[k] := tx[batch[k]].(published := true)];
        } else {
          tx := tx[batch[k] := tx[batch[k]].(attempts := tx[batch[k]].attempts + 1)];
        }
        k := k + 1;
      }
      assert results[..k] == results;
      if !crash {
        rows := tx;
      }
      return |batch|;
    }
  }

  // ---------- One batch, row by row ----------

  /** Published at no time yet, fewer than ten failures, and not locked. */
  predicate Waits(rows: seq<Row>, locked: set<nat>, i: nat) {
    i < |rows| && !rows[i].published && rows[i].attempts < 10 && i !in locked
  }

  /** The waiting rows from `from` up to row i. */
  function Ahead(rows: seq<Row>, locked: set<nat>, from: nat, i: nat): set<nat> {
    set j | from <= j < i && Waits(rows, locked, j)
  }

  /** A row is in the batch exactly when it waits and fewer than `limit` wait ahead of it; that is its place. */
  lemma {:induction false} SelectsExactly(rows: seq<Row>, locked: set<nat>, from: nat, limit: nat, i: nat)
    requires from <= i < |rows|
    ensures var batch, place := Select(rows, locked, from, limit), |Ahead(rows, locked, from, i)|;
      && (i in batch <==> Waits(rows, locked, i) && place < limit)
      && (i in batch ==> place < |batch| && batch[place] == i)
    decreases |rows| - from
  {
    if limit != 0 && from < i {
      var taken := Waits(rows, locked, from);
      SelectsExactly(rows, locked, from + 1, if taken then limit - 1 else limit, i);
      var rest := Ahead(rows, locked, from + 1, i);
      assert Ahead(rows, locked, from, i) == if taken then rest + {from} else rest;
    } else if from == i {
      assert Ahead(rows, locked, from, i) == {};
    }
  }

  /** The acknowledged publishes among the first k. */
  function Acks(results: seq<bool>, k: nat): set<nat> {
    set j | 0 <= j < k && j < |results| && results[j]
  }

  lemma {:induction false} AcksNext(results: seq<bool>, k: nat)
    requires k < |results|
    ensures |Acks(results, k + 1)| == |Acks(results, k)| + if results[k] then 1 else 0
  {
    assert Acks(results, k + 1) == if results[k] then Acks(results, k) + {k} else Acks(results, k);
  }

  /** The k-th publish, if acknowledged, is on the stream after those acknowledged before it. */
  lemma {:induction false} AckedAt(rows: seq<Row>, batch: seq<nat>, results: seq<bool>, n: nat, k: nat)
    requires k < n <= |results| <= |batch| && InTable(rows, batch)
    ensures var acked := AckedEvents(rows, batch, results[..n]);
      && |acked| == |Acks(results, n)|
      && (results[k] ==> |Acks(results, k)| < |acked| && acked[|Acks(results, k)|] == rows[batch[k]].event)
  {
    AckedCount(rows, batch, results, n - 1);
    MarkedNext(rows, batch, results, n - 1);
    AcksNext(results, n - 1);
    if k < n - 1 { AckedAt(rows, batch, results, n - 1, k); }
  }

  lemma {:induction false} AckedCount(rows: seq<Row>, batch: seq<nat>, results: seq<bool>, n: nat)
    requires n <= |results| <= |batch| && InTable(rows, batch)
    ensures |AckedEvents(rows, batch, results[..n])| == |Acks(results, n)|
  {
    if n == 0 {
      assert Acks(results, 0) == {};
    } else {
      AckedCount(rows, batch, results, n - 1);
      MarkedNext(rows, batch, results, n - 1);
      AcksNext(results, n - 1);
    }
  }

  /**
   What one batch does to a row. With k waiting rows ahead of it, a waiting row is the k-th publish of
   the batch if k < 50 and the batch gets there: acknowledged, it is marked published and its event is
   on the stream after those acknowledged before it; failed, it has one more attempt. Any other row
   stays as it is, and nothing else is on the stream.
   */
  lemma {:induction false} BatchExactly(rows: seq<Row>, results: seq<bool>, i: nat)
    requires i < |rows| && |results| <= |Select(rows, {}, 0, BATCH_SIZE)|
    ensures var batch, k := Select(rows, {}, 0, BATCH_SIZE), |Ahead(rows, {}, 0, i)|;
      var acked := AckedEvents(rows, batch, results);
      && (Waits(rows, {}, i) && k < 50 <==> i in batch)
      && Marked(rows, batch, results)[i] ==
           (if !Waits(rows, {}, i) || k >= |results| then rows[i]
            else if results[k] then Row(rows[i].event, true, rows[i].attempts)
            else Row(rows[i].event, false, rows[i].attempts + 1))
      && |acked| == |Acks(results, |results|)|
      && (Waits(rows, {}, i) && k < |results| && results[k] ==>
            |Acks(results, k)| < |acked| && acked[|Acks(results, k)|] == rows[i].event)
  {
    var batch, k := Select(rows, {}, 0, BATCH_SIZE), |Ahead(rows, {}, 0, i)|;
    SelectsExactly(rows, {}, 0, BATCH_SIZE, i);
    assert results[..|results|] == results;
    AckedCount(rows, batch, results, |results|);
    if i in batch && k < |results| {
      AckedAt(rows, batch, results, |results|, k);
    } else {
      forall j | 0 <= j < |results| ensures batch[j] != i {
        assert batch[j] in batch;
      }
    }
    MarkedAt(rows, batch, results, i);
  }

  // ---------- Several replicas ----------

  /** A replica inside its batch transaction: the locked rows, and the outcomes so far. */
  datatype Transaction = Transaction(batch: seq<nat>, results: seq<bool>)

  /** `acks` and `rollbacks` count, per row, broker acks received and rolled-back batches that held it. */
  datatype Fleet = Fleet(rows: seq<Row>, open: map<nat, Transaction>, acks: seq<nat>, rollbacks: seq<nat>)

  datatype FleetStep =
    | Append(event: Event)
    | Begin(replica: nat)
    | Publish(replica: nat, acked: bool)
    | Commit(replica: nat)
    | Crash(replica: nat)

  function Locked(f: Fleet): set<nat> {
    set r, k | r in f.open && 0 <= k < |f.open[r].batch| :: f.open[r].batch[k]
  }

  ghost predicate WellLocked(f: Fleet) {
    && |f.acks| == |f.rollbacks| == |f.rows|
    && (forall r | r in f.open ::
          InTable(f.rows, f.open[r].batch) && |f.open[r].results| <= |f.open[r].batch|)
  }

  function Bump(counts: seq<nat>, i: nat): seq<nat>
    requires i < |counts|
  {
    counts[i := counts[i] + 1]
  }

  function BumpAll(counts: seq<nat>, batch: seq<nat>): (after: seq<nat>)
    ensures |after| == |counts|
  {
    seq(|counts|, i requires 0 <= i < |counts| => if i in batch then counts[i] + 1 else counts[i])
  }

  /** A step that is not enabled leaves the fleet as it is. */
  ghost function FleetNext(f: Fleet, s: FleetStep): Fleet
    requires WellLocked(f)
  {
    match s
    case Append(event) =>
      f.(rows := f.rows + [Row(event, false, 0)], acks := f.acks + [0], rollbacks := f.rollbacks + [0])
    case Begin(r) =>
      if r in f.open then f
      else f.(open := f.open[r := Transaction(Select(f.rows, Locked(f), 0, BATCH_SIZE), [])])
    case Publish(r, acked) =>
      if r !in f.open || |f.open[r].results| == |f.open[r].batch| then f
      else
        var t := f.open[r];
        f.(open := f.open[r := t.(results := t.results + [acked])],
           acks := if acked then Bump(f.acks, t.batch[|t.results|]) else f.acks)
    case Commit(r) =>
      if r !in f.open || |f.open[r].results| < |f.open[r].batch| then f
      else f.(rows := Marked(f.rows, f.open[r].batch, f.open[r].results), open := f.open - {r})
    case Crash(r) =>
      if r !in f.open then f
      else f.(open := f.open - {r}, rollbacks := BumpAll(f.rollbacks, f.open[r].batch))
  }

  lemma {:induction false} MarkedAt(rows: seq<Row>, batch: seq<nat>, results: seq<bool>, i: nat)
    requires |results| <= |batch| && InTable(rows, batch) && i < |rows|
    requires forall j, k :: 0 <= j < k < |batch| ==> batch[j] < batch[k]
    ensures forall k :: 0 <= k < |results| && batch[k] == i ==>
              Marked(rows, batch, results)[i] == Mark(rows, i, results[k])[i]
    ensures (forall k :: 0 <= k < |results| ==> batch[k] != i) ==> Marked(rows, batch, results)[i] == rows[i]
    decreases |results|
  {
    if results != [] {
      MarkedAt(rows, batch, results[..|results| - 1], i);
    }
  }

  /** Row i is locked by replica r as the k-th row of its batch. */
  predicate Holds(f: Fleet, r: nat, k: int, i: int) {
    r in f.open && 0 <= k < |f.open[r].batch| && f.open[r].batch[k] == i
  }

  predicate AckedIn(f: Fleet, r: nat, k: int) {
    r in f.open && 0 <= k < |f.open[r].results| && f.open[r].results[k]
  }

  ghost predicate LocksFine(f: Fleet) {
    && (forall r | r in f.open ::
          && |f.open[r].batch| <= BATCH_SIZE
          && forall j, k :: 0 <= j < k < |f.open[r].batch| ==> f.open[r].batch[j] < f.open[r].batch[k])
    && (forall r: nat, k, i :: Holds(f, r, k, i) ==> 0 <= i < |f.rows| && Eligible(f.rows[i]))
    && (forall r: nat, k, q: nat, l, i :: Holds(f, r, k, i) && Holds(f, q, l, i) ==> r == q && k == l)
  }

  ghost predicate CountsFine(f: Fleet)
    requires WellLocked(f)
  {
    && (forall i | 0 <= i < |f.rows| :: f.rows[i].attempts <= MAX_ATTEMPTS && (f.rows[i].published ==> 1 <= f.acks[i]))
    && (forall i | 0 <= i < |f.rows| :: (forall r: nat, k :: !Holds(f, r, k, i)) ==>
          f.acks[i] <= f.rollbacks[i] + if f.rows[i].published then 1 else 0)
    && (forall r: nat, k, i :: Holds(f, r, k, i) && 0 <= i < |f.rows| ==>
          && f.acks[i] <= f.rollbacks[i] + (if AckedIn(f, r, k) then 1 else 0)
          && (AckedIn(f, r, k) ==> 1 <= f.acks[i]))
  }

  ghost predicate FleetInv(f: Fleet) {
    WellLocked(f) && LocksFine(f) && CountsFine(f)
  }

  lemma {:induction false} AppendKeeps(f: Fleet, event: Event, g: Fleet)
    requires FleetInv(f) && g == FleetNext(f, Append(event))
    ensures FleetInv(g)
  {
    assert forall r: nat, k, i :: Holds(g, r, k, i) <==> Holds(f, r, k, i);
    assert forall r: nat, k :: AckedIn(g, r, k) <==> AckedIn(f, r, k);
  }

  lemma BeginHolds(f: Fleet, r: nat, g: Fleet)
    requires WellLocked(f) && r !in f.open && g == FleetNext(f, Begin(r))
    ensures forall q: nat, k, i :: q != r ==> (Holds(g, q, k, i) <==> Holds(f, q, k, i))
    ensures forall q: nat, k :: q != r ==> (AckedIn(g, q, k) <==> AckedIn(f, q, k))
    ensures forall q: nat, k, l, i :: Holds(g, r, k, i) ==> !Holds(f, q, l, i)
    ensures forall k, i :: Holds(g, r, k, i) ==> 0 <= i < |f.rows| && Eligible(f.rows[i]) && !AckedIn(g, r, k)
  {
  }

  lemma {:induction false} BeginLocks(f: Fleet, r: nat, g: Fleet)
    requires FleetInv(f) && r !in f.open && g == FleetNext(f, Begin(r))
    ensures WellLocked(g) && LocksFine(g)
  {
    BeginHolds(f, r, g);
  }

  lemma {:induction false} BeginKeeps(f: Fleet, r: nat, g: Fleet)
    requires FleetInv(f) && r !in f.open && g == FleetNext(f, Begin(r))
    ensures FleetInv(g)
  {
    BeginLocks(f, r, g);
    BeginHolds(f, r, g);
    forall i | 0 <= i < |g.rows| && (forall q: nat, k :: !Holds(g, q, k, i))
      ensures g.acks[i] <= g.rollbacks[i] + if g.rows[i].published then 1 else 0
    {
      forall q: nat, k ensures !Holds(f, q, k, i) { assert !Holds(g, q, k, i); }
    }
  }

  lemma {:induction false} PublishKeeps(f: Fleet, r: nat, acked: bool, g: Fleet)
    requires FleetInv(f) && r in f.open && |f.open[r].results| < |f.open[r].batch|
    requires g == FleetNext(f, Publish(r, acked))
    ensures FleetInv(g)
  {
    var n := |f.open[r].results|;
    var row := f.open[r].batch[n];
    assert Holds(f, r, n, row);
    assert forall q: nat, k, i :: Holds(g, q, k, i) <==> Holds(f, q, k, i);
    forall q: nat, k ensures AckedIn(g, q, k) <==> AckedIn(f, q, k) || (q == r && k == n && acked) {
    }
    assert !AckedIn(f, r, n);
  }

  lemma {:induction false} CrashKeeps(f: Fleet, r: nat, g: Fleet)
    requires FleetInv(f) && r in f.open && g == FleetNext(f, Crash(r))
    ensures FleetInv(g)
  {
    assert forall q: nat, k, i :: Holds(g, q, k, i) <==> q != r && Holds(f, q, k, i);
    assert forall q: nat, k :: q != r ==> (AckedIn(g, q, k) <==> AckedIn(f, q, k));
    forall i | 0 <= i < |g.rows| && (forall q: nat, k :: !Holds(g, q, k, i))
      ensures g.acks[i] <= g.rollbacks[i] + if g.rows[i].published then 1 else 0
    {
      if i in f.open[r].batch {
        var k :| 0 <= k < |f.open[r].batch| && f.open[r].batch[k] == i;
        assert Holds(f, r, k, i);
      } else {
        forall q: nat, k ensures !Holds(f, q, k, i) { assert !Holds(g, q, k, i); }
      }
    }
  }

  /** What a commit writes to row i, by whether the batch held it. */
  lemma {:induction false} CommitRow(f: Fleet, r: nat, g: Fleet, i: nat)
    requires FleetInv(f) && r in f.open && |f.open[r].results| == |f.open[r].batch|
    requires g == FleetNext(f, Commit(r)) && i < |f.rows|
    ensures forall k :: Holds(f, r, k, i) ==> g.rows[i] == Mark(f.rows, i, f.open[r].results[k])[i]
    ensures (forall k :: !Holds(f, r, k, i)) ==> g.rows[i] == f.rows[i]
  {
    var t := f.open[r];
    MarkedAt(f.rows, t.batch, t.results, i);
    if forall k :: !Holds(f, r, k, i) {
      forall k | 0 <= k < |t.results| ensures t.batch[k] != i { assert !Holds(f, r, k, i); }
    }
  }

  lemma {:induction false} CommitKeeps(f: Fleet, r: nat, g: Fleet)
    requires FleetInv(f) && r in f.open && |f.open[r].results| == |f.open[r].batch|
    requires g == FleetNext(f, Commit(r))
    ensures FleetInv(g)
  {
    assert forall q: nat, k, i :: Holds(g, q, k, i) <==> q != r && Holds(f, q, k, i);
    assert forall q: nat, k :: q != r ==> (AckedIn(g, q, k) <==> AckedIn(f, q, k));
    forall q: nat, k, i | Holds(g, q, k, i) ensures 0 <= i < |g.rows| && g.rows[i] == f.rows[i] {
      forall l ensures !Holds(f, r, l, i) { assert Holds(f, q, k, i); }
      CommitRow(f, r, g, i);
    }
    forall i | 0 <= i < |g.rows|
      ensures g.rows[i].attempts <= MAX_ATTEMPTS && (g.rows[i].published ==> 1 <= g.acks[i])
      ensures (forall q: nat, k :: !Holds(g, q, k, i)) ==>
                g.acks[i] <= g.rollbacks[i] + if g.rows[i].published then 1 else 0
    {
      CommitRow(f, r, g, i);
      if k :| Holds(f, r, k, i) {
        assert AckedIn(f, r, k) <==> f.open[r].results[k];
      } else if forall q: nat, k :: !Holds(g, q, k, i) {
        forall q: nat, k ensures !Holds(f, q, k, i) { assert !Holds(g, q, k, i); }
      }
    }
  }

  ghost function FleetRun(f: Fleet, steps: seq<FleetStep>): Fleet
    requires FleetInv(f)
    decreases |steps|
  {
    if steps == [] then f
    else
      FleetNextKeeps(f, steps[0]);
      FleetRun(FleetNext(f, steps[0]), steps[1..])
  }

  lemma {:induction false} FleetNextKeeps(f: Fleet, s: FleetStep)
    requires FleetInv(f)
    ensures FleetInv(FleetNext(f, s))
  {
    var g := FleetNext(f, s);
    match s
    case Append(event) => AppendKeeps(f, event, g);
    case Begin(r) => if r !in f.open { BeginKeeps(f, r, g); }
    case Publish(r, acked) =>
      if r in f.open && |f.open[r].results| < |f.open[r].batch| { PublishKeeps(f, r, acked, g); }
    case Commit(r) => if r in f.open && |f.open[r].results| == |f.open[r].batch| { CommitKeeps(f, r, g); }
    case Crash(r) => if r in f.open { CrashKeeps(f, r, g); }
  }

  lemma {:induction false} FleetRunKeeps(f: Fleet, steps: seq<FleetStep>)
    requires FleetInv(f)
    ensures FleetInv(FleetRun(f, steps))
    decreases |steps|
  {
    if steps != [] {
      FleetNextKeeps(f, steps[0]);
      FleetRunKeeps(FleetNext(f, steps[0]), steps[1..]);
    }
  }

  function EventsOf(rows: seq<Row>): seq<Event> {
    seq(|rows|, i requires 0 <= i < |rows| => rows[i].event)
  }

  /** The events committed to the outbox during a run. */
  function Appended(steps: seq<FleetStep>): seq<Event> {
    if steps == [] then []
    else (if steps[0].Append? then [steps[0].event] else []) + Appended(steps[1..])
  }

  lemma {:induction false} StepKeepsEvents(f: Fleet, s: FleetStep, g: Fleet)
    requires FleetInv(f) && g == FleetNext(f, s)
    ensures EventsOf(g.rows) == EventsOf(f.rows) + if s.Append? then [s.event] else []
  {
    if s.Commit? && s.replica in f.open && |f.open[s.replica].results| == |f.open[s.replica].batch| {
      forall i | 0 <= i < |f.rows| ensures g.rows[i].event == f.rows[i].event {
        EventsStay(f.rows, f.open[s.replica].batch, f.open[s.replica].results, i);
      }
    }
  }

  lemma {:induction false} RunKeepsEvents(f: Fleet, steps: seq<FleetStep>)
    requires FleetInv(f)
    ensures EventsOf(FleetRun(f, steps).rows) == EventsOf(f.rows) + Appended(steps)
    decreases |steps|
  {
    if steps == [] {
      assert EventsOf(f.rows) + [] == EventsOf(f.rows);
    } else {
      var s, g := steps[0], FleetNext(f, steps[0]);
      FleetNextKeeps(f, s);
      StepKeepsEvents(f, s, g);
      RunKeepsEvents(g, steps[1..]);
      assert FleetRun(f, steps) == FleetRun(g, steps[1..]);
      assert Appended(steps) == (if s.Append? then [s.event] else []) + Appended(steps[1..]);
    }
  }

  /**
   Outbox conservation, for any number of replicas and any interleaving of appends, batches,
   publishes that succeed or fail, commits and crashes: the table holds exactly the committed
   events in their order; every row is published, still eligible, or parked at exactly ten
   failed attempts; a published row was acknowledged; a row is acknowledged at most once more
   than the rolled-back batches that held it; and no row is locked twice.
   */
  lemma {:induction false} Conservation(steps: seq<FleetStep>, i: nat)
    requires i < |FleetRun(Fleet([], map[], [], []), steps).rows|
    ensures var f := FleetRun(Fleet([], map[], [], []), steps);
      && |f.acks| == |f.rollbacks| == |f.rows| && EventsOf(f.rows) == Appended(steps)
      && (f.rows[i].published || Eligible(f.rows[i]) || Parked(f.rows[i]))
      && (f.rows[i].published ==> 1 <= f.acks[i])
      && f.acks[i] <= f.rollbacks[i] + 1
      && (forall r: nat, k, q: nat, l :: Holds(f, r, k, i) && Holds(f, q, l, i) ==> r == q && k == l)
  {
    var start := Fleet([], map[], [], []);
    FleetRunKeeps(start, steps);
    RunKeepsEvents(start, steps);
    var f := FleetRun(start, steps);
    if r: nat, k :| Holds(f, r, k, i) {
    }
  }
}
