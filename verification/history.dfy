/**
 Cursor paging over a conversation's history and the web client's gap recovery.
 The server history is dense (Delivery.ExactlyOnce): the row at position k has sequence k + 1.
 */
module History {
  import opened Domain
  import opened Transcript

  const PAGE_SIZE := 50
  const RECOVERY_LIMIT := 100

  predicate DenseHistory(history: seq<ClientMessage>) {
    forall k :: 0 <= k < |history| ==> Sequence(history[k]) == k + 1
  }

  /** Served rows and the hasMore flag. */
  datatype Page = Page(messages: seq<ClientMessage>, hasMore: bool)

  /** parseInt(limit) || 50, clamped to 1..100. */
  function ParsedLimit(limit: Option<int>): nat {
    var n := if limit.None? || limit.value == 0 then 50 else limit.value;
    Min(Max(n, 1), 100)
  }

  /** WHERE sequence < before AND sequence > after. */
  predicate Passes(sequence: nat, before: Option<int>, after: Option<int>) {
    (before.Some? ==> sequence < before.value) && (after.Some? ==> sequence > after.value)
  }

  function Matching(history: seq<ClientMessage>, before: Option<int>, after: Option<int>): seq<ClientMessage> {
    if history == [] then []
    else if Passes(Sequence(history[0]), before, after) then [history[0]] + Matching(history[1..], before, after)
    else Matching(history[1..], before, after)
  }

  /** listMessages: oldest first with `after`, otherwise the newest rows, always served ascending. */
  function ListMessages(history: seq<ClientMessage>, before: Option<int>, after: Option<int>,
      limit: Option<int>): Page {
    var rows := Matching(history, before, after);
    var n := Min(ParsedLimit(limit), |rows|);
    var taken := if after.Some? then rows[..n] else rows[|rows| - n..];
    Page(taken, n == ParsedLimit(limit))
  }

  /** The clients build the query with `if (opts.after)`: a zero cursor is not sent. */
  function Cursor(value: nat): Option<int> {
    if value == 0 then None else Some(value)
  }

  // ---------- Pages of a dense history are slices ----------

  lemma {:induction false} MatchingIsSlice(history: seq<ClientMessage>, before: Option<int>, after: Option<int>,
      lo: nat, hi: nat)
    requires lo <= hi <= |history|
    requires forall k :: 0 <= k < |history| ==> (Passes(Sequence(history[k]), before, after) <==> lo <= k < hi)
    ensures Matching(history, before, after) == history[lo..hi]
    decreases |history|
  {
    if history != [] {
      var rest := history[1..];
      assert forall k :: 0 <= k < |rest| ==> rest[k] == history[k + 1];
      if lo > 0 {
        MatchingIsSlice(rest, before, after, lo - 1, hi - 1);
        assert history[lo..hi] == rest[lo - 1..hi - 1];
      } else if hi > 0 {
        MatchingIsSlice(rest, before, after, 0, hi - 1);
        assert history[..hi] == [history[0]] + rest[..hi - 1];
      } else {
        MatchingIsSlice(rest, before, after, 0, 0);
      }
    }
  }

  lemma {:induction false} OlderPage(history: seq<ClientMessage>, before: nat, limit: nat)
    requires DenseHistory(history) && 1 <= before <= |history| + 1 && 1 <= limit <= 100
    ensures var n := Min(limit, before - 1);
      ListMessages(history, Some(before), None, Some(limit)) == Page(history[before - 1 - n..before - 1], n == limit)
  {
    MatchingIsSlice(history, Some(before), None, 0, before - 1);
  }

  lemma {:induction false} LatestPage(history: seq<ClientMessage>, limit: nat)
    requires DenseHistory(history) && 1 <= limit <= 100
    ensures var n := Min(limit, |history|);
      ListMessages(history, None, None, Some(limit)) == Page(history[|history| - n..], n == limit)
  {
    MatchingIsSlice(history, None, None, 0, |history|);
  }

  lemma {:induction false} NewerPage(history: seq<ClientMessage>, after: nat, limit: nat)
    requires DenseHistory(history) && after <= |history| && 1 <= limit <= 100
    ensures var n := Min(limit, |history| - after);
      ListMessages(history, None, Some(after), Some(limit)) == Page(history[after..after + n], n == limit)
  {
    MatchingIsSlice(history, None, Some(after), after, |history|);
  }

  // ---------- The span of history a transcript holds ----------

  /** The transcript holds exactly the ids of sequences lo..hi, in order; row contents may be newer. */
  ghost predicate Spans(list: seq<ClientMessage>, history: seq<ClientMessage>, lo: nat, hi: nat) {
    && 1 <= lo && hi <= |history| && |list| == hi - lo + 1
    && forall i :: 0 <= i < |list| ==> Id(list[i]) == Id(history[lo - 1 + i]) && Sequence(list[i]) == lo + i
  }

  predicate InRange(history: seq<ClientMessage>, from: int, to: int, id: MessageId) {
    exists k :: 0 <= k < |history| && from <= k < to && Id(history[k]) == id
  }

  lemma SliceIds(history: seq<ClientMessage>, from: nat, to: nat, id: MessageId)
    requires from <= to <= |history|
    ensures HasId(history[from..to], id) <==> InRange(history, from, to, id)
  {
  }

  lemma {:induction false} SpanIds(list: seq<ClientMessage>, history: seq<ClientMessage>, lo: nat, hi: nat,
      id: MessageId)
    requires Spans(list, history, lo, hi)
    ensures HasId(list, id) <==> InRange(history, lo - 1, hi, id)
  {
    if InRange(history, lo - 1, hi, id) {
      var k :| 0 <= k < |history| && lo - 1 <= k < hi && Id(history[k]) == id;
      assert Id(list[k - (lo - 1)]) == id;
    }
    if HasId(list, id) {
      var i :| 0 <= i < |list| && Id(list[i]) == id;
      assert Id(history[lo - 1 + i]) == id;
    }
  }

  /** An ordered transcript with exactly the ids of a slice spans that slice. */
  lemma {:induction false} SpanFromIds(list: seq<ClientMessage>, history: seq<ClientMessage>,
      slots: map<MessageId, nat>, lo: nat, hi: nat)
    requires Injective(slots) && DenseHistory(history) && Numbered(history, slots) && Ordered(list, slots)
    requires 1 <= lo <= hi + 1 && hi <= |history|
    requires forall id :: HasId(list, id) <==> InRange(history, lo - 1, hi, id)
    ensures Spans(list, history, lo, hi)
  {
    var slice := history[lo - 1..hi];
    forall id ensures HasId(list, id) <==> HasId(slice, id) { SliceIds(history, lo - 1, hi, id); }
    assert Ordered(slice, slots);
    SkeletonUnique(list, slice, slots);
    assert forall i :: 0 <= i < |slice| ==> slice[i] == history[lo - 1 + i];
  }

  // ---------- Loading older pages ----------

  datatype Pager = Pager(list: seq<ClientMessage>, hasMore: bool)

  /** loadOlder: one page below the oldest cached row; nothing to do without rows or without more. */
  function LoadOlder(p: Pager, history: seq<ClientMessage>): Pager {
    if p.list == [] || !p.hasMore then p
    else
      var page := ListMessages(history, Cursor(Sequence(p.list[0])), None, Some(PAGE_SIZE));
      Pager(Prepend(p.list, page.messages), page.hasMore)
  }

  lemma {:induction false} PrependSlice(list: seq<ClientMessage>, history: seq<ClientMessage>,
      slots: map<MessageId, nat>, from: nat, lo: nat, hi: nat)
    requires Injective(slots) && DenseHistory(history) && Numbered(history, slots)
    requires Ordered(list, slots) && from < lo <= hi && Spans(list, history, lo, hi)
    ensures var q := Prepend(list, history[from..lo - 1]); Ordered(q, slots) && Spans(q, history, from + 1, hi)
  {
    var page := history[from..lo - 1];
    assert Numbered(page, slots);
    PrependMeaning(list, page, slots);
    var q := Prepend(list, page);
    forall id ensures HasId(q, id) <==> InRange(history, from, hi, id) {
      PrependedId(list, history, from, lo, hi, q, id);
    }
    SpanFromIds(q, history, slots, from + 1, hi);
  }

  lemma {:induction false} PrependedId(list: seq<ClientMessage>, history: seq<ClientMessage>, from: nat, lo: nat,
      hi: nat, out: seq<ClientMessage>, id: MessageId)
    requires from < lo <= hi && Spans(list, history, lo, hi)
    requires Find(out, id) == if HasId(list, id) then Find(list, id) else Find(history[from..lo - 1], id)
    ensures HasId(out, id) <==> InRange(history, from, hi, id)
  {
    FindIsMember(out, id);
    FindIsMember(list, id);
    FindIsMember(history[from..lo - 1], id);
    SpanIds(list, history, lo, hi, id);
    SliceIds(history, from, lo - 1, id);
  }

  lemma {:induction false} LoadOlderMeaning(p: Pager, history: seq<ClientMessage>, slots: map<MessageId, nat>,
      lo: nat, hi: nat, q: Pager)
    requires Injective(slots) && DenseHistory(history) && Numbered(history, slots)
    requires Ordered(p.list, slots) && lo <= hi && Spans(p.list, history, lo, hi) && p.hasMore
    requires q == LoadOlder(p, history)
    ensures Ordered(q.list, slots) && Spans(q.list, history, if lo <= PAGE_SIZE then 1 else lo - PAGE_SIZE, hi)
    ensures q.hasMore <==> lo > PAGE_SIZE
  {
    var n := Min(PAGE_SIZE, lo - 1);
    OlderPage(history, lo, PAGE_SIZE);
    PrependSlice(p.list, history, slots, lo - 1 - n, lo, hi);
  }

  /**
   Scrolling to the top: paging from any loaded tail ends, and leaves sequences 1..hi exactly
   once each, while new messages may keep arriving at the server (each round sees its own,
   longer history).
   */
  method LoadEverything(start: Pager, ghost slots: map<MessageId, nat>, servers: nat -> seq<ClientMessage>, lo: nat,
      hi: nat)
    returns (p: Pager, rounds: nat)
    requires Injective(slots) && Ordered(start.list, slots)
    requires forall r :: DenseHistory(servers(r)) && Numbered(servers(r), slots)
    requires forall r :: hi <= |servers(r)|
    requires forall r :: servers(r)[..hi] == servers(0)[..hi]
    requires lo <= hi && Spans(start.list, servers(0), lo, hi) && (!start.hasMore ==> lo == 1)
    ensures !p.hasMore && StrictlySorted(p.list)
    ensures Spans(p.list, servers(0), 1, hi)
    ensures rounds <= (lo - 1) / PAGE_SIZE + 1
  {
    p := start;
    rounds := 0;
    ghost var bottom := lo;
    while p.hasMore
      invariant 1 <= bottom <= hi && Ordered(p.list, slots) && Spans(p.list, servers(0), bottom, hi)
      invariant !p.hasMore ==> bottom == 1
      invariant if p.hasMore then bottom + PAGE_SIZE * rounds == lo else rounds <= (lo - 1) / PAGE_SIZE + 1
      decreases bottom + if p.hasMore then 1 else 0
    {
      assert Spans(p.list, servers(rounds), bottom, hi) by {
        forall i | 0 <= i < |p.list| ensures Id(p.list[i]) == Id(servers(rounds)[bottom - 1 + i]) {
          assert servers(rounds)[..hi][bottom - 1 + i] == servers(0)[..hi][bottom - 1 + i];
        }
      }
      LoadOlderMeaning(p, servers(rounds), slots, bottom, hi, LoadOlder(p, servers(rounds)));
      p := LoadOlder(p, servers(rounds));
      ghost var next := if bottom <= PAGE_SIZE then 1 else bottom - PAGE_SIZE;
      assert Spans(p.list, servers(0), next, hi) by {
        forall i | 0 <= i < |p.list| ensures Id(p.list[i]) == Id(servers(0)[next - 1 + i]) {
          assert servers(rounds)[..hi][next - 1 + i] == servers(0)[..hi][next - 1 + i];
        }
      }
      rounds := rounds + 1;
      bottom := next;
    }
  }

  // ---------- Gap recovery on the web client ----------

  /** The cached transcript and the list entry's lastSequence. */
  datatype Feed = Feed(list: seq<ClientMessage>, lastSequence: nat)

  function LastCached(list: seq<ClientMessage>): nat {
    if list == [] then 0 else Sequence(list[|list| - 1])
  }

  /** The watermark read before the event is applied. */
  function LastKnown(f: Feed): nat {
    Max(f.lastSequence, LastCached(f.list))
  }

  predicate JumpsGap(f: Feed, row: ClientMessage) {
    Sequence(row) > LastKnown(f) + 1
  }

  function UpsertAll(list: seq<ClientMessage>, rows: seq<ClientMessage>): seq<ClientMessage>
    decreases |rows|
  {
    if rows == [] then list else Upsert(UpsertAll(list, rows[..|rows| - 1]), rows[|rows| - 1])
  }

  /** The rows recoverSequenceGap asks the server for. */
  function RecoveryRows(history: seq<ClientMessage>, after: nat): seq<ClientMessage> {
    ListMessages(history, None, Cursor(after), Some(RECOVERY_LIMIT)).messages
  }

  lemma {:induction false} RecoveryRowsSlice(history: seq<ClientMessage>, after: nat)
    requires DenseHistory(history) && 0 < after <= |history|
    ensures RecoveryRows(history, after) == history[after..Min(after + RECOVERY_LIMIT, |history|)]
  {
    NewerPage(history, after, RECOVERY_LIMIT);
  }

  /** recoverSequenceGap: fetched rows are upserted one by one. */
  method RecoverSequenceGap(list: seq<ClientMessage>, history: seq<ClientMessage>,
      after: nat) returns (healed: seq<ClientMessage>)
    ensures healed == UpsertAll(list, RecoveryRows(history, after))
  {
    var rows := RecoveryRows(history, after);
    healed := list;
    for i := 0 to |rows|
      invariant healed == UpsertAll(list, rows[..i])
    {
      assert rows[..i + 1][..i] == rows[..i];
      healed := Upsert(healed, rows[i]);
    }
    assert rows[..|rows|] == rows;
  }

  /** message.created at the client; `recovered` says whether the fetch it may start succeeds against `history`. */
  function ReceiveCreated(f: Feed, row: ClientMessage, recovered: bool, history: seq<ClientMessage>): Feed {
    var applied := Feed(Upsert(f.list, row), Max(f.lastSequence, Sequence(row)));
    if JumpsGap(f, row) && recovered
    then applied.(list := UpsertAll(applied.list, RecoveryRows(history, LastKnown(f))))
    else applied
  }

  lemma {:induction false} UpsertAllMeaning(list: seq<ClientMessage>, rows: seq<ClientMessage>,
      slots: map<MessageId, nat>)
    requires Injective(slots) && Ordered(list, slots) && Numbered(rows, slots)
    ensures Ordered(UpsertAll(list, rows), slots)
    ensures forall id :: HasId(UpsertAll(list, rows), id) <==> HasId(list, id) || HasId(rows, id)
    decreases |rows|
  {
    if rows != [] {
      var front, last := rows[..|rows| - 1], rows[|rows| - 1];
      assert rows == front + [last];
      UpsertAllMeaning(list, front, slots);
      var mid := UpsertAll(list, front);
      assert [last][0] == last;
      UpsertMeaning(mid, last, slots);
      forall id ensures HasId(UpsertAll(list, rows), id) <==> HasId(list, id) || HasId(rows, id) {
        FindIsMember(mid, id);
        FindIsMember(UpsertAll(list, rows), id);
        FindAppended(front, [last], id);
        FindIsMember(front, id);
        FindIsMember(rows, id);
      }
    }
  }

  predicate Contiguous(list: seq<ClientMessage>) {
    forall i :: 0 <= i < |list| - 1 ==> Sequence(list[i + 1]) == Sequence(list[i]) + 1
  }

  lemma {:induction false} ContiguousAt(list: seq<ClientMessage>, i: nat)
    requires Contiguous(list) && i < |list|
    ensures Sequence(list[i]) == Sequence(list[0]) + i
  {
    if i != 0 { ContiguousAt(list, i - 1); }
  }

  /** The ids a client holds after a jump from w to s and its completed recovery. */
  lemma {:induction false} JumpIds(f: Feed, history: seq<ClientMessage>, slots: map<MessageId, nat>,
      row: ClientMessage, lo: nat, w: nat, s: nat, g: Feed)
    requires Injective(slots) && DenseHistory(history) && Numbered(history, slots) && Ordered(f.list, slots)
    requires 1 <= lo <= w && Spans(f.list, history, lo, w) && f.lastSequence <= w
    requires w + 1 < s <= |history| && Id(row) == Id(history[s - 1]) && Sequence(row) == s
    requires g == ReceiveCreated(f, row, true, history)
    ensures Ordered(g.list, slots)
    ensures forall id :: HasId(g.list, id) <==>
      InRange(history, lo - 1, Min(w + RECOVERY_LIMIT, |history|), id) || id == Id(row)
  {
    var n := Min(RECOVERY_LIMIT, |history| - w);
    RecoveryRowsSlice(history, w);
    var rows := history[w..w + n];
    assert LastKnown(f) == w && RecoveryRows(history, w) == rows;
    assert Id([row][0]) == Id(row);
    assert Numbered([row], slots) by { assert Sequence(history[s - 1]) == s; }
    UpsertMeaning(f.list, row, slots);
    UpsertAllMeaning(Upsert(f.list, row), rows, slots);
    assert g.list == UpsertAll(Upsert(f.list, row), rows);
    forall id ensures HasId(g.list, id) <==> InRange(history, lo - 1, w + n, id) || id == Id(row) {
      JumpId(f.list, history, lo, w, n, row, id, g.list);
    }
  }

  lemma {:induction false} JumpId(list: seq<ClientMessage>, history: seq<ClientMessage>, lo: nat, w: nat, n: nat,
      row: ClientMessage, id: MessageId, out: seq<ClientMessage>)
    requires 1 <= lo <= w && w + n <= |history| && Spans(list, history, lo, w)
    requires Find(Upsert(list, row), id) == if id == Id(row) then Some(row) else Find(list, id)
    requires HasId(out, id) <==> HasId(Upsert(list, row), id) || HasId(history[w..w + n], id)
    ensures HasId(out, id) <==> InRange(history, lo - 1, w + n, id) || id == Id(row)
  {
    FindIsMember(Upsert(list, row), id);
    FindIsMember(list, id);
    SpanIds(list, history, lo, w, id);
    SliceIds(history, w, w + n, id);
  }

  /**
   Gap recovery, exactly: from a contiguous tail lo..w that is the known watermark, an event
   with sequence s > w + 1 followed by its completed recovery leaves a contiguous transcript
   if and only if at most 100 messages were missing; then it holds everything from lo up.
   */
  lemma {:induction false} GapHealsExactly(f: Feed, history: seq<ClientMessage>, slots: map<MessageId, nat>,
      row: ClientMessage, lo: nat, w: nat, s: nat, g: Feed)
    requires Injective(slots) && DenseHistory(history) && Numbered(history, slots) && Ordered(f.list, slots)
    requires 1 <= lo <= w && Spans(f.list, history, lo, w) && f.lastSequence <= w
    requires w + 1 < s <= |history| && Id(row) == Id(history[s - 1]) && Sequence(row) == s
    requires g == ReceiveCreated(f, row, true, history)
    ensures StrictlySorted(g.list)
    ensures Contiguous(g.list) <==> s - 1 - w <= RECOVERY_LIMIT
    ensures s - 1 - w <= RECOVERY_LIMIT ==> Spans(g.list, history, lo, Max(s, Min(w + RECOVERY_LIMIT, |history|)))
  {
    JumpIds(f, history, slots, row, lo, w, s, g);
    var top := Min(w + RECOVERY_LIMIT, |history|);
    if s - 1 - w <= RECOVERY_LIMIT {
      var hi := Max(s, top);
      forall id ensures HasId(g.list, id) <==> InRange(history, lo - 1, hi, id) {
        if id == Id(row) { assert Id(history[s - 1]) == id; }
      }
      SpanFromIds(g.list, history, slots, lo, hi);
    } else {
      var below := Id(history[s - 2]);
      assert !HasId(g.list, below) by {
        assert Sequence(history[s - 2]) == s - 1;
      }
      if Contiguous(g.list) {
        assert HasId(g.list, Id(history[w - 1])) by { assert InRange(history, lo - 1, top, Id(history[w - 1])); }
        ContiguousFills(g.list, history, slots, w, s);
      }
    }
  }

  /** A contiguous transcript that holds w and a later s holds s - 1. */
  lemma {:induction false} ContiguousFills(list: seq<ClientMessage>, history: seq<ClientMessage>,
      slots: map<MessageId, nat>, w: nat, s: nat)
    requires DenseHistory(history) && Numbered(history, slots) && Ordered(list, slots) && Injective(slots)
    requires 1 <= w < s <= |history| && Contiguous(list)
    requires HasId(list, Id(history[w - 1])) && HasId(list, Id(history[s - 1]))
    ensures HasId(list, Id(history[s - 2]))
  {
    var i :| 0 <= i < |list| && Id(list[i]) == Id(history[w - 1]);
    var j :| 0 <= j < |list| && Id(list[j]) == Id(history[s - 1]);
    ContiguousAt(list, i);
    ContiguousAt(list, j);
    ContiguousAt(list, j - 1);
    assert Sequence(list[j - 1]) == s - 1 == Sequence(history[s - 2]);
  }

  // ---------- A failed recovery is never repeated ----------

  /** Rows fetched after a non-zero watermark all lie above it. */
  lemma {:induction false} RecoveryRowsAbove(history: seq<ClientMessage>, after: nat)
    requires DenseHistory(history) && after > 0
    ensures forall i :: 0 <= i < |RecoveryRows(history, after)| ==> Sequence(RecoveryRows(history, after)[i]) > after
  {
    if after <= |history| {
      NewerPage(history, after, RECOVERY_LIMIT);
    } else {
      MatchingIsSlice(history, None, Some(after), |history|, |history|);
    }
  }

  /** One event: a sequence below the watermark that is not cached stays out unless the event itself is that row. */
  lemma {:induction false} HoleStays(f: Feed, row: ClientMessage, recovered: bool, history: seq<ClientMessage>,
      slots: map<MessageId, nat>, hole: MessageId)
    requires Injective(slots) && Ordered(f.list, slots) && Numbered([row], slots)
    requires DenseHistory(history) && Numbered(history, slots)
    requires hole in slots && 0 < slots[hole] <= LastKnown(f) && !HasId(f.list, hole) && Id(row) != hole
    ensures var g := ReceiveCreated(f, row, recovered, history);
      Ordered(g.list, slots) && !HasId(g.list, hole) && slots[hole] <= LastKnown(g)
  {
    var applied := Upsert(f.list, row);
    UpsertMeaning(f.list, row, slots);
    FindIsMember(applied, hole);
    FindIsMember(f.list, hole);
    if JumpsGap(f, row) && recovered {
      var rows := RecoveryRows(history, LastKnown(f));
      RecoveryRowsAbove(history, LastKnown(f));
      RecoveryRowsNumbered(history, LastKnown(f), slots);
      UpsertAllMeaning(applied, rows, slots);
      forall i | 0 <= i < |rows| ensures Id(rows[i]) != hole { assert slots[Id(rows[i])] == Sequence(rows[i]); }
    }
    KnownGrows(f, row, recovered, history, slots, ReceiveCreated(f, row, recovered, history));
  }

  lemma {:induction false} RecoveryRowsNumbered(history: seq<ClientMessage>, after: nat, slots: map<MessageId, nat>)
    requires DenseHistory(history) && Numbered(history, slots) && after > 0
    ensures Numbered(RecoveryRows(history, after), slots)
  {
    if after <= |history| {
      NewerPage(history, after, RECOVERY_LIMIT);
    } else {
      MatchingIsSlice(history, None, Some(after), |history|, |history|);
    }
  }

  lemma CachedBelowLast(list: seq<ClientMessage>, slots: map<MessageId, nat>, id: MessageId)
    requires Ordered(list, slots) && HasId(list, id)
    ensures id in slots && slots[id] <= LastCached(list)
  {
  }

  /** Neither an upsert nor a recovery drops a cached row. */
  lemma {:induction false} CachedStays(list: seq<ClientMessage>, row: ClientMessage, rows: seq<ClientMessage>,
      slots: map<MessageId, nat>, id: MessageId)
    requires Injective(slots) && Ordered(list, slots) && Numbered([row], slots) && Numbered(rows, slots)
    requires HasId(list, id)
    ensures Ordered(Upsert(list, row), slots) && HasId(Upsert(list, row), id)
    ensures Ordered(UpsertAll(Upsert(list, row), rows), slots) && HasId(UpsertAll(Upsert(list, row), rows), id)
  {
    UpsertMeaning(list, row, slots);
    FindIsMember(list, id);
    FindIsMember(Upsert(list, row), id);
    UpsertAllMeaning(Upsert(list, row), rows, slots);
  }

  /** The watermark read by gap detection never goes down. */
  lemma {:induction false} KnownGrows(f: Feed, row: ClientMessage, recovered: bool, history: seq<ClientMessage>,
      slots: map<MessageId, nat>, g: Feed)
    requires Injective(slots) && Ordered(f.list, slots) && Numbered([row], slots)
    requires DenseHistory(history) && Numbered(history, slots) && 0 < LastKnown(f)
    requires g == ReceiveCreated(f, row, recovered, history)
    ensures LastKnown(f) <= LastKnown(g)
  {
    if f.list != [] {
      var top := Id(f.list[|f.list| - 1]);
      RecoveryRowsNumbered(history, LastKnown(f), slots);
      CachedStays(f.list, row, RecoveryRows(history, LastKnown(f)), slots, top);
      CachedBelowLast(g.list, slots, top);
    }
  }

  datatype Created = Created(row: ClientMessage, recovered: bool, history: seq<ClientMessage>)

  function ReceiveAllCreated(f: Feed, events: seq<Created>): Feed
    decreases |events|
  {
    if events == [] then f
    else ReceiveAllCreated(ReceiveCreated(f, events[0].row, events[0].recovered, events[0].history), events[1..])
  }

  /** Some delivered event is the row itself. */
  predicate DeliveredAgain(events: seq<Created>, id: MessageId) {
    exists k :: 0 <= k < |events| && Id(events[k].row) == id
  }

  lemma {:induction false} AgainAfter(events: seq<Created>, id: MessageId)
    requires events != []
    ensures DeliveredAgain(events, id) <==> Id(events[0].row) == id || DeliveredAgain(events[1..], id)
  {
    if k :| 0 <= k < |events| && Id(events[k].row) == id {
      if k > 0 { assert events[1..][k - 1] == events[k]; }
    }
    if k :| 0 <= k < |events[1..]| && Id(events[1..][k].row) == id { assert events[k + 1] == events[1..][k]; }
  }

  /** A cached row stays cached. */
  lemma {:induction false} CachedForGood(f: Feed, events: seq<Created>, slots: map<MessageId, nat>, id: MessageId)
    requires Injective(slots) && Ordered(f.list, slots) && HasId(f.list, id) && 0 < LastKnown(f)
    requires forall k :: 0 <= k < |events| ==> Numbered([events[k].row], slots)
    requires forall k :: 0 <= k < |events| ==> DenseHistory(events[k].history) && Numbered(events[k].history, slots)
    ensures HasId(ReceiveAllCreated(f, events).list, id)
    decreases |events|
  {
    if events != [] {
      var e := events[0];
      var g := ReceiveCreated(f, e.row, e.recovered, e.history);
      RecoveryRowsNumbered(e.history, LastKnown(f), slots);
      CachedStays(f.list, e.row, RecoveryRows(e.history, LastKnown(f)), slots, id);
      KnownGrows(f, e.row, e.recovered, e.history, slots, g);
      CachedForGood(g, events[1..], slots, id);
    }
  }

  /** An event that is the missing row itself brings it in. */
  lemma {:induction false} OwnRowFills(f: Feed, e: Created, slots: map<MessageId, nat>)
    requires Injective(slots) && Ordered(f.list, slots) && 0 < LastKnown(f)
    requires Numbered([e.row], slots) && DenseHistory(e.history) && Numbered(e.history, slots)
    ensures var g := ReceiveCreated(f, e.row, e.recovered, e.history);
      Ordered(g.list, slots) && HasId(g.list, Id(e.row))
  {
    var rows := RecoveryRows(e.history, LastKnown(f));
    UpsertMeaning(f.list, e.row, slots);
    FindIsMember(Upsert(f.list, e.row), Id(e.row));
    RecoveryRowsNumbered(e.history, LastKnown(f), slots);
    UpsertAllMeaning(Upsert(f.list, e.row), rows, slots);
  }

  /**
   The comment at the recovery's catch block promises that the next canonical event retries;
   the code does not. Once a sequence at or below the watermark is missing, later live events,
   with or without their recoveries, bring it back if and only if one of them is that very row.
   */
  lemma {:induction false} MissedRecoveryIsFinal(f: Feed, events: seq<Created>, slots: map<MessageId, nat>,
      hole: MessageId)
    requires Injective(slots) && Ordered(f.list, slots)
    requires hole in slots && 0 < slots[hole] <= LastKnown(f) && !HasId(f.list, hole)
    requires forall k :: 0 <= k < |events| ==> Numbered([events[k].row], slots)
    requires forall k :: 0 <= k < |events| ==> DenseHistory(events[k].history) && Numbered(events[k].history, slots)
    ensures HasId(ReceiveAllCreated(f, events).list, hole) <==> DeliveredAgain(events, hole)
    decreases |events|
  {
    if events != [] {
      var e := events[0];
      var g := ReceiveCreated(f, e.row, e.recovered, e.history);
      AgainAfter(events, hole);
      KnownGrows(f, e.row, e.recovered, e.history, slots, g);
      if Id(e.row) == hole {
        OwnRowFills(f, e, slots);
        CachedForGood(g, events[1..], slots, hole);
      } else {
        HoleStays(f, e.row, e.recovered, e.history, slots, hole);
        MissedRecoveryIsFinal(g, events[1..], slots, hole);
      }
    }
  }

  // ---------- Holes inside the cached span ----------

  /**
   What can reach the cached rows: a live event and its recovery, an older page, a reconnect, and
   the newest page that opening the conversation merges under them. `history` is the server's.
   */
  datatype Arrival =
    | Live(event: Created)
    | Older(hasMore: bool, history: seq<ClientMessage>)
    | Again(listed: nat, history: seq<ClientMessage>)
    | Opened(history: seq<ClientMessage>)

  function Server(a: Arrival): seq<ClientMessage> {
    if a.Live? then a.event.history else a.history
  }

  /** The effect of MessageList on opening: the newest page without a cursor, cached rows winning over it. */
  function OpenConversation(list: seq<ClientMessage>, history: seq<ClientMessage>): seq<ClientMessage> {
    MergeSnapshot(ListMessages(history, None, None, Some(PAGE_SIZE)).messages, list)
  }

  function Arrive(f: Feed, a: Arrival): Feed {
    match a
    case Live(e) => ReceiveCreated(f, e.row, e.recovered, e.history)
    case Older(hasMore, history) => f.(list := LoadOlder(Pager(f.list, hasMore), history).list)
    case Again(listed, history) => Reconnect(f, listed, history)
    case Opened(history) => f.(list := OpenConversation(f.list, history))
  }

  function ArriveAll(f: Feed, arrivals: seq<Arrival>): Feed
    decreases |arrivals|
  {
    if arrivals == [] then f else ArriveAll(Arrive(f, arrivals[0]), arrivals[1..])
  }

  ghost predicate FromServer(a: Arrival, slots: map<MessageId, nat>) {
    && DenseHistory(Server(a)) && Numbered(Server(a), slots)
    && (a.Live? ==> Numbered([a.event.row], slots))
  }

  predicate Positive(slots: map<MessageId, nat>) {
    forall id :: id in slots ==> slots[id] > 0
  }

  /** Missing, with a cached row on either side. */
  ghost predicate Inner(list: seq<ClientMessage>, slots: map<MessageId, nat>, hole: MessageId) {
    && Ordered(list, slots) && list != [] && hole in slots && !HasId(list, hole)
    && Sequence(list[0]) < slots[hole] < LastCached(list)
  }

  /** The row itself as a live event, or an opening while it is among the newest 50. */
  predicate Brings(a: Arrival, slots: map<MessageId, nat>, id: MessageId)
    requires id in slots
  {
    || (a.Live? && Id(a.event.row) == id)
    || (a.Opened? && |a.history| - PAGE_SIZE < slots[id] <= |a.history|)
  }

  predicate Brought(arrivals: seq<Arrival>, slots: map<MessageId, nat>, id: MessageId)
    requires id in slots
  {
    exists k :: 0 <= k < |arrivals| && Brings(arrivals[k], slots, id)
  }

  lemma FirstBelow(list: seq<ClientMessage>, slots: map<MessageId, nat>, id: MessageId)
    requires Ordered(list, slots) && HasId(list, id)
    ensures list != [] && id in slots && Sequence(list[0]) <= slots[id]
  {
  }

  /** Rows come in and none goes, so the span only widens. */
  lemma {:induction false} InnerStays(a: seq<ClientMessage>, b: seq<ClientMessage>, slots: map<MessageId, nat>,
      hole: MessageId)
    requires Inner(a, slots, hole) && Ordered(b, slots) && !HasId(b, hole) && forall id :: HasId(a, id) ==> HasId(b, id)
    ensures Inner(b, slots, hole)
  {
    var first, last := Id(a[0]), Id(a[|a| - 1]);
    assert HasId(a, first) && HasId(a, last);
    FirstBelow(b, slots, first);
    CachedBelowLast(b, slots, last);
  }

  /** A page below a cursor is a stretch of history below it. */
  lemma {:induction false} PageBelow(history: seq<ClientMessage>, before: nat) returns (lo: nat, hi: nat)
    requires DenseHistory(history) && before > 0
    ensures lo <= hi <= |history| && hi < before
    ensures ListMessages(history, Cursor(before), None, Some(PAGE_SIZE)).messages == history[lo..hi]
  {
    hi := Min(before - 1, |history|);
    MatchingIsSlice(history, Some(before), None, 0, hi);
    lo := hi - Min(PAGE_SIZE, hi);
    assert history[0..hi][lo..] == history[lo..hi];
  }

  lemma {:induction false} OlderKeeps(list: seq<ClientMessage>, hasMore: bool, history: seq<ClientMessage>,
      slots: map<MessageId, nat>, out: seq<ClientMessage>)
    requires Injective(slots) && Positive(slots) && Ordered(list, slots) && list != []
    requires DenseHistory(history) && Numbered(history, slots) && out == LoadOlder(Pager(list, hasMore), history).list
    ensures Ordered(out, slots) && forall id :: HasId(list, id) ==> HasId(out, id)
    ensures forall id :: HasId(out, id) && !HasId(list, id) ==> id in slots && slots[id] < Sequence(list[0])
  {
    if hasMore {
      assert Id(list[0]) in slots;
      var lo, hi := PageBelow(history, Sequence(list[0]));
      PageKeeps(list, history[lo..hi], slots, out);
    }
  }

  lemma {:induction false} PageKeeps(list: seq<ClientMessage>, page: seq<ClientMessage>, slots: map<MessageId, nat>,
      out: seq<ClientMessage>)
    requires Injective(slots) && Ordered(list, slots) && list != [] && Ordered(page, slots)
    requires out == Prepend(list, page)
    requires forall i :: 0 <= i < |page| ==> Sequence(page[i]) < Sequence(list[0])
    ensures Ordered(out, slots) && forall id :: HasId(list, id) ==> HasId(out, id)
    ensures forall id :: HasId(out, id) && !HasId(list, id) ==> id in slots && slots[id] < Sequence(list[0])
  {
    OrderedDistinct(page, slots);
    PrependMeaning(list, page, slots);
    forall id
      ensures HasId(list, id) ==> HasId(out, id)
      ensures HasId(out, id) && !HasId(list, id) ==> id in slots && slots[id] < Sequence(list[0])
    {
      EitherHas(list, page, out, id);
    }
  }

  lemma {:induction false} AgainKeeps(f: Feed, listed: nat, history: seq<ClientMessage>, slots: map<MessageId, nat>)
    requires Injective(slots) && Ordered(f.list, slots) && LastCached(f.list) > 0
    requires DenseHistory(history) && Numbered(history, slots)
    ensures var out := Reconnect(f, listed, history).list;
      && Ordered(out, slots) && (forall id :: HasId(f.list, id) ==> HasId(out, id))
      && forall id :: HasId(out, id) && !HasId(f.list, id) ==> id in slots && slots[id] > LastCached(f.list)
  {
    var rows := RecoveryRows(history, LastCached(f.list));
    RecoveryRowsNumbered(history, LastCached(f.list), slots);
    RecoveryRowsAbove(history, LastCached(f.list));
    UpsertAllMeaning(f.list, rows, slots);
  }

  lemma {:induction false} LiveKeeps(f: Feed, e: Created, slots: map<MessageId, nat>, id: MessageId)
    requires Injective(slots) && Ordered(f.list, slots) && 0 < LastKnown(f)
    requires Numbered([e.row], slots) && DenseHistory(e.history) && Numbered(e.history, slots)
    ensures var g := ReceiveCreated(f, e.row, e.recovered, e.history);
      Ordered(g.list, slots) && (HasId(f.list, id) ==> HasId(g.list, id))
  {
    OwnRowFills(f, e, slots);
    RecoveryRowsNumbered(e.history, LastKnown(f), slots);
    if HasId(f.list, id) { CachedStays(f.list, e.row, RecoveryRows(e.history, LastKnown(f)), slots, id); }
  }

  /** Every sequence of the server's history is numbered, so a numbered id is in it exactly at its sequence. */
  lemma {:induction false} NewestHas(history: seq<ClientMessage>, slots: map<MessageId, nat>, n: nat, id: MessageId)
    requires Injective(slots) && DenseHistory(history) && Numbered(history, slots) && n <= |history| && id in slots
    ensures HasId(history[|history| - n..], id) <==> |history| - n < slots[id] <= |history|
  {
    var page := history[|history| - n..];
    if |history| - n < slots[id] <= |history| {
      var k := slots[id] - 1;
      assert Sequence(history[k]) == slots[Id(history[k])] == slots[id];
      assert Id(page[k - (|history| - n)]) == id;
    }
    if HasId(page, id) {
      var i :| 0 <= i < |page| && Id(page[i]) == id;
      assert page[i] == history[|history| - n + i];
    }
  }

  /** Opening brings in exactly the newest page and drops nothing. */
  lemma {:induction false} OpenedRows(list: seq<ClientMessage>, history: seq<ClientMessage>, slots: map<MessageId, nat>)
    requires Injective(slots) && Positive(slots) && Ordered(list, slots)
    requires DenseHistory(history) && Numbered(history, slots)
    ensures var out := OpenConversation(list, history);
      && Ordered(out, slots)
      && (forall id :: HasId(out, id) ==> id in slots)
      && forall id :: id in slots ==>
           (HasId(out, id) <==> HasId(list, id) || |history| - PAGE_SIZE < slots[id] <= |history|)
  {
    var n := Min(PAGE_SIZE, |history|);
    var page := history[|history| - n..];
    var out := OpenConversation(list, history);
    LatestPage(history, PAGE_SIZE);
    assert Ordered(page, slots);
    OrderedDistinct(page, slots);
    OrderedDistinct(list, slots);
    MergeMeaning(page, list, slots);
    forall id | id in slots
      ensures HasId(out, id) <==> HasId(list, id) || |history| - PAGE_SIZE < slots[id] <= |history|
    {
      EitherHas(list, page, out, id);
      NewestHas(history, slots, n, id);
    }
    forall id | HasId(out, id) ensures id in slots { CachedBelowLast(out, slots, id); }
  }

  lemma {:induction false} EitherHas(list: seq<ClientMessage>, page: seq<ClientMessage>, out: seq<ClientMessage>,
      id: MessageId)
    requires Find(out, id) == if HasId(list, id) then Find(list, id) else Find(page, id)
    ensures HasId(out, id) <==> HasId(list, id) || HasId(page, id)
  {
    FindIsMember(out, id);
    FindIsMember(list, id);
    FindIsMember(page, id);
  }

  /** One arrival at a hole: only one that brings its row fills it. */
  lemma {:induction false} ArrivalAtHole(f: Feed, a: Arrival, slots: map<MessageId, nat>, hole: MessageId)
    requires Injective(slots) && Positive(slots) && Inner(f.list, slots, hole) && FromServer(a, slots)
    ensures var g := Arrive(f, a);
      if Brings(a, slots, hole) then Ordered(g.list, slots) && HasId(g.list, hole) else Inner(g.list, slots, hole)
  {
    var g := Arrive(f, a);
    match a
    case Live(e) =>
      forall id ensures HasId(f.list, id) ==> HasId(g.list, id) { LiveKeeps(f, e, slots, id); }
      if Brings(a, slots, hole) {
        OwnRowFills(f, e, slots);
      } else {
        HoleStays(f, e.row, e.recovered, e.history, slots, hole);
        InnerStays(f.list, g.list, slots, hole);
      }
    case Older(hasMore, history) =>
      OlderKeeps(f.list, hasMore, history, slots, g.list);
      InnerStays(f.list, g.list, slots, hole);
    case Again(listed, history) =>
      AgainKeeps(f, listed, history, slots);
      InnerStays(f.list, g.list, slots, hole);
    case Opened(history) =>
      OpenedRows(f.list, history, slots);
      if !Brings(a, slots, hole) { OpenedInner(f.list, g.list, slots, hole); }
  }

  lemma {:induction false} OpenedInner(a: seq<ClientMessage>, b: seq<ClientMessage>, slots: map<MessageId, nat>,
      hole: MessageId)
    requires Inner(a, slots, hole) && Ordered(b, slots) && !HasId(b, hole)
    requires forall id :: id in slots && HasId(a, id) ==> HasId(b, id)
    ensures Inner(b, slots, hole)
  {
    forall id | HasId(a, id) ensures HasId(b, id) { CachedBelowLast(a, slots, id); }
    InnerStays(a, b, slots, hole);
  }

  lemma {:induction false} ArrivalKeeps(f: Feed, a: Arrival, slots: map<MessageId, nat>, id: MessageId)
    requires Injective(slots) && Positive(slots) && Ordered(f.list, slots) && HasId(f.list, id) && FromServer(a, slots)
    ensures Ordered(Arrive(f, a).list, slots) && HasId(Arrive(f, a).list, id)
  {
    CachedBelowLast(f.list, slots, id);
    match a
    case Live(e) => LiveKeeps(f, e, slots, id);
    case Older(hasMore, history) => OlderKeeps(f.list, hasMore, history, slots, Arrive(f, a).list);
    case Again(listed, history) => AgainKeeps(f, listed, history, slots);
    case Opened(history) => OpenedRows(f.list, history, slots);
  }

  lemma {:induction false} RowStays(f: Feed, arrivals: seq<Arrival>, slots: map<MessageId, nat>, id: MessageId)
    requires Injective(slots) && Positive(slots) && Ordered(f.list, slots) && HasId(f.list, id)
    requires forall k :: 0 <= k < |arrivals| ==> FromServer(arrivals[k], slots)
    ensures HasId(ArriveAll(f, arrivals).list, id)
    decreases |arrivals|
  {
    if arrivals != [] {
      ArrivalKeeps(f, arrivals[0], slots, id);
      RowStays(Arrive(f, arrivals[0]), arrivals[1..], slots, id);
    }
  }

  lemma {:induction false} BroughtAfter(arrivals: seq<Arrival>, slots: map<MessageId, nat>, id: MessageId)
    requires arrivals != [] && id in slots
    ensures Brought(arrivals, slots, id) <==> Brings(arrivals[0], slots, id) || Brought(arrivals[1..], slots, id)
  {
    if k :| 0 <= k < |arrivals| && Brings(arrivals[k], slots, id) {
      if k > 0 { assert arrivals[1..][k - 1] == arrivals[k]; }
    }
    if k :| 0 <= k < |arrivals[1..]| && Brings(arrivals[1..][k], slots, id) {
      assert arrivals[k + 1] == arrivals[1..][k];
    }
  }

  /**
   A hole between two cached rows is filled, by live events with their recoveries, older pages,
   reconnects and openings of the conversation in any order, if and only if its own row is
   delivered again as a live event or the conversation is opened while the row is among the
   newest 50: every fetch with a cursor asks for rows outside the cached span.
   */
  lemma {:induction false} InnerHoleFilledExactly(f: Feed, arrivals: seq<Arrival>, slots: map<MessageId, nat>,
      hole: MessageId)
    requires Injective(slots) && Positive(slots) && Inner(f.list, slots, hole)
    requires forall k :: 0 <= k < |arrivals| ==> FromServer(arrivals[k], slots)
    ensures HasId(ArriveAll(f, arrivals).list, hole) <==> Brought(arrivals, slots, hole)
    decreases |arrivals|
  {
    if arrivals != [] {
      BroughtAfter(arrivals, slots, hole);
      ArrivalAtHole(f, arrivals[0], slots, hole);
      if Brings(arrivals[0], slots, hole) {
        RowStays(Arrive(f, arrivals[0]), arrivals[1..], slots, hole);
      } else {
        InnerHoleFilledExactly(Arrive(f, arrivals[0]), arrivals[1..], slots, hole);
      }
    }
  }

  /** The lowest sequence cached after an opening: of the cached rows, or of the newest page. */
  function LowestOpened(history: seq<ClientMessage>, lo: nat): nat {
    if |history| - PAGE_SIZE < lo then Max(1, |history| - PAGE_SIZE + 1) else lo
  }

  /**
   Opening a conversation with rows cached keeps them one stretch if and only if the newest 50
   reach down to it: a contiguous span that ends at w stays contiguous exactly when at most 50
   messages came after w, and then holds everything up to the newest.
   */
  lemma {:induction false} OpeningHealsExactly(list: seq<ClientMessage>, history: seq<ClientMessage>,
      slots: map<MessageId, nat>, lo: nat, w: nat, out: seq<ClientMessage>)
    requires Injective(slots) && Positive(slots) && DenseHistory(history) && Numbered(history, slots)
    requires Ordered(list, slots)
    requires 1 <= lo <= w && Spans(list, history, lo, w) && out == OpenConversation(list, history)
    ensures Contiguous(out) <==> |history| - w <= PAGE_SIZE
    ensures |history| - w <= PAGE_SIZE ==> Spans(out, history, LowestOpened(history, lo), |history|)
  {
    OpenedRows(list, history, slots);
    if |history| - w <= PAGE_SIZE {
      var low := LowestOpened(history, lo);
      forall id ensures HasId(out, id) <==> InRange(history, low - 1, |history|, id) {
        OpenedId(list, history, slots, lo, w, low, out, id);
      }
      SpanFromIds(out, history, slots, low, |history|);
    } else {
      OpeningGap(list, history, slots, lo, w, out);
    }
  }

  lemma {:induction false} OpenedId(list: seq<ClientMessage>, history: seq<ClientMessage>, slots: map<MessageId, nat>,
      lo: nat, w: nat, low: nat, out: seq<ClientMessage>, id: MessageId)
    requires Injective(slots) && Positive(slots) && DenseHistory(history) && Numbered(history, slots)
    requires 1 <= lo <= w && Spans(list, history, lo, w) && |history| - w <= PAGE_SIZE
    requires (HasId(out, id) ==> id in slots)
    requires low == LowestOpened(history, lo)
    requires id in slots ==> (HasId(out, id) <==> HasId(list, id) || |history| - PAGE_SIZE < slots[id] <= |history|)
    ensures HasId(out, id) <==> InRange(history, low - 1, |history|, id)
  {
    SpanIds(list, history, lo, w, id);
    RangeBySlot(history, slots, lo - 1, w, id);
    RangeBySlot(history, slots, low - 1, |history|, id);
  }

  lemma {:induction false} RangeBySlot(history: seq<ClientMessage>, slots: map<MessageId, nat>, from: nat, to: nat,
      id: MessageId)
    requires Injective(slots) && DenseHistory(history) && Numbered(history, slots) && to <= |history|
    ensures InRange(history, from, to, id) <==> id in slots && from < slots[id] <= to
  {
    if k :| 0 <= k < |history| && from <= k < to && Id(history[k]) == id {
      assert slots[Id(history[k])] == Sequence(history[k]) == k + 1;
    }
    if id in slots && from < slots[id] <= to {
      var k := slots[id] - 1;
      assert slots[Id(history[k])] == Sequence(history[k]) == k + 1;
    }
  }

  /** More than 50 messages later the opening leaves out all between the cached rows and the newest 50. */
  lemma {:induction false} OpeningGap(list: seq<ClientMessage>, history: seq<ClientMessage>, slots: map<MessageId, nat>,
      lo: nat, w: nat, out: seq<ClientMessage>)
    requires Injective(slots) && Positive(slots) && DenseHistory(history) && Numbered(history, slots)
    requires Ordered(list, slots)
    requires 1 <= lo <= w && Spans(list, history, lo, w) && out == OpenConversation(list, history)
    requires |history| - w > PAGE_SIZE
    ensures forall hole :: hole in slots && w < slots[hole] <= |history| - PAGE_SIZE ==> Inner(out, slots, hole)
    ensures !Contiguous(out)
  {
    OpenedRows(list, history, slots);
    forall hole | hole in slots && w < slots[hole] <= |history| - PAGE_SIZE ensures Inner(out, slots, hole) {
      OpeningHole(list, history, slots, lo, w, out, hole);
    }
    var first := Id(history[w]);
    assert slots[first] == Sequence(history[w]) == w + 1;
    InnerBreaks(out, slots, first);
  }

  lemma {:induction false} OpeningHole(list: seq<ClientMessage>, history: seq<ClientMessage>,
      slots: map<MessageId, nat>, lo: nat, w: nat, out: seq<ClientMessage>, hole: MessageId)
    requires Injective(slots) && DenseHistory(history) && Numbered(history, slots) && Ordered(list, slots)
    requires 1 <= lo <= w && Spans(list, history, lo, w) && Ordered(out, slots)
    requires forall id :: id in slots ==>
      (HasId(out, id) <==> HasId(list, id) || |history| - PAGE_SIZE < slots[id] <= |history|)
    requires hole in slots && w < slots[hole] <= |history| - PAGE_SIZE
    ensures Inner(out, slots, hole)
  {
    var low, newest := Id(history[w - 1]), Id(history[|history| - 1]);
    assert slots[low] == Sequence(history[w - 1]) == w;
    assert slots[newest] == Sequence(history[|history| - 1]) == |history|;
    SpanIds(list, history, lo, w, hole);
    RangeBySlot(history, slots, lo - 1, w, hole);
    SpanIds(list, history, lo, w, low);
    RangeBySlot(history, slots, lo - 1, w, low);
    FirstBelow(out, slots, low);
    CachedBelowLast(out, slots, newest);
  }

  lemma {:induction false} ContiguousHas(list: seq<ClientMessage>, slots: map<MessageId, nat>, id: MessageId)
    requires Injective(slots) && Ordered(list, slots) && list != [] && Contiguous(list)
    requires id in slots && Sequence(list[0]) <= slots[id] <= LastCached(list)
    ensures HasId(list, id)
  {
    var i := slots[id] - Sequence(list[0]);
    ContiguousAt(list, |list| - 1);
    ContiguousAt(list, i);
    assert slots[Id(list[i])] == slots[id];
  }

  /** A list with a hole inside is not one stretch. */
  lemma {:induction false} InnerBreaks(list: seq<ClientMessage>, slots: map<MessageId, nat>, hole: MessageId)
    requires Injective(slots) && Inner(list, slots, hole)
    ensures !Contiguous(list)
  {
    if Contiguous(list) { ContiguousHas(list, slots, hole); }
  }

  /** A jump whose recovery fails leaves every message in between as such a hole. */
  lemma {:induction false} FailedFetchLeavesHoles(f: Feed, history: seq<ClientMessage>, slots: map<MessageId, nat>,
      row: ClientMessage, lo: nat, w: nat, s: nat, k: nat)
    requires Injective(slots) && DenseHistory(history) && Numbered(history, slots) && Ordered(f.list, slots)
    requires 1 <= lo <= w && Spans(f.list, history, lo, w)
    requires w < k < s <= |history| && Id(row) == Id(history[s - 1]) && Sequence(row) == s
    ensures Inner(ReceiveCreated(f, row, false, history).list, slots, Id(history[k - 1]))
  {
    var g, hole := ReceiveCreated(f, row, false, history), Id(history[k - 1]);
    assert Sequence(history[k - 1]) == k && Sequence(history[s - 1]) == s && slots[Id(history[s - 1])] == s;
    assert Numbered([row], slots);
    UpsertMeaning(f.list, row, slots);
    SpanIds(f.list, history, lo, w, hole);
    FindIsMember(f.list, hole);
    FindIsMember(g.list, hole);
    FindIsMember(g.list, Id(row));
    CachedBelowLast(g.list, slots, Id(row));
    FirstKept(f.list, row, slots, g.list);
  }

  lemma {:induction false} FirstKept(list: seq<ClientMessage>, row: ClientMessage, slots: map<MessageId, nat>,
      out: seq<ClientMessage>)
    requires Ordered(list, slots) && list != [] && Ordered(out, slots) && Id(row) in slots
    requires forall id :: Find(out, id) == if id == Id(row) then Some(row) else Find(list, id)
    ensures out != [] && Sequence(out[0]) <= Sequence(list[0])
  {
    FindIsMember(list, Id(list[0]));
    FindIsMember(out, Id(list[0]));
    assert HasId(list, Id(list[0]));
    FirstBelow(out, slots, Id(list[0]));
  }

  /** The ids an empty client holds after its first event jumped and the recovery completed. */
  lemma {:induction false} EmptyClientIds(history: seq<ClientMessage>, slots: map<MessageId, nat>, row: ClientMessage,
      g: Feed, id: MessageId)
    requires Injective(slots) && DenseHistory(history) && Numbered(history, slots) && Numbered([row], slots)
    requires 1 < Sequence(row) && g == ReceiveCreated(Feed([], 0), row, true, history)
    ensures Ordered(g.list, slots)
    ensures HasId(g.list, id) <==>
      InRange(history, |history| - Min(RECOVERY_LIMIT, |history|), |history|, id) || id == Id(row)
  {
    var n := Min(RECOVERY_LIMIT, |history|);
    LatestPage(history, RECOVERY_LIMIT);
    var rows := history[|history| - n..];
    assert rows == history[|history| - n..|history|];
    UpsertMeaning([], row, slots);
    UpsertAllMeaning(Upsert([], row), rows, slots);
    FindIsMember(Upsert([], row), id);
    SliceIds(history, |history| - n, |history|, id);
  }

  /**
   With an empty client (watermark 0) the cursor is not sent, so the recovery fetches the
   newest rows instead of the oldest missing ones. Everything is recovered exactly when the
   whole history fits one recovery page.
   */
  lemma {:induction false} EmptyClientRecovery(history: seq<ClientMessage>, slots: map<MessageId, nat>,
      row: ClientMessage, s: nat, g: Feed)
    requires Injective(slots) && DenseHistory(history) && Numbered(history, slots)
    requires 1 < s <= |history| && Id(row) == Id(history[s - 1]) && Sequence(row) == s
    requires g == ReceiveCreated(Feed([], 0), row, true, history)
    ensures Ordered(g.list, slots)
    ensures Spans(g.list, history, 1, |history|) <==> |history| <= RECOVERY_LIMIT
  {
    assert Numbered([row], slots) by { assert Sequence(history[s - 1]) == s; }
    EmptyClientIds(history, slots, row, g, Id(row));
    if |history| <= RECOVERY_LIMIT {
      forall id ensures HasId(g.list, id) <==> InRange(history, 0, |history|, id) {
        EmptyClientIds(history, slots, row, g, id);
        if id == Id(row) { assert Id(history[s - 1]) == id; }
      }
      SpanFromIds(g.list, history, slots, 1, |history|);
    } else {
      EmptyClientMisses(history, slots, row, s, g);
      WholeSpanHoldsFirst(g.list, history);
    }
  }

  lemma {:induction false} WholeSpanHoldsFirst(list: seq<ClientMessage>, history: seq<ClientMessage>)
    ensures Spans(list, history, 1, |history|) && history != [] ==> HasId(list, Id(history[0]))
  {
    if Spans(list, history, 1, |history|) && history != [] { assert Id(list[0]) == Id(history[0]); }
  }

  lemma {:induction false} EmptyClientMisses(history: seq<ClientMessage>, slots: map<MessageId, nat>,
      row: ClientMessage, s: nat, g: Feed)
    requires Injective(slots) && DenseHistory(history) && Numbered(history, slots) && Numbered([row], slots)
    requires 1 < s <= |history| && Id(row) == Id(history[s - 1]) && Sequence(row) == s && |history| > RECOVERY_LIMIT
    requires g == ReceiveCreated(Feed([], 0), row, true, history)
    ensures !HasId(g.list, Id(history[0]))
  {
    var first := Id(history[0]);
    EmptyClientIds(history, slots, row, g, first);
    assert slots[first] == 1 && slots[Id(row)] == s;
    if k :| 0 <= k < |history| && |history| - RECOVERY_LIMIT <= k < |history| && Id(history[k]) == first {
      assert slots[Id(history[k])] == Sequence(history[k]) == k + 1;
    }
  }

  // ---------- Reconnecting ----------

  /**
   recoverAfterReconnect for the active conversation: the list snapshot says `listed`, then the
   rows after the last cached one are fetched from a history that may have grown since.
   */
  function Reconnect(f: Feed, listed: nat, history: seq<ClientMessage>): Feed {
    if LastCached(f.list) > 0
    then Feed(UpsertAll(f.list, RecoveryRows(history, LastCached(f.list))), listed)
    else Feed(SortMessages(ListMessages(history, None, None, Some(PAGE_SIZE)).messages), listed)
  }

  /** Reconnecting extends a contiguous tail by the next 100 missed messages: all of them, or not. */
  lemma {:induction false} ReconnectExtends(f: Feed, listed: nat, history: seq<ClientMessage>,
      slots: map<MessageId, nat>, lo: nat, w: nat, g: Feed)
    requires Injective(slots) && DenseHistory(history) && Numbered(history, slots) && Ordered(f.list, slots)
    requires 1 <= lo <= w <= |history| && Spans(f.list, history, lo, w) && g == Reconnect(f, listed, history)
    ensures Ordered(g.list, slots) && Spans(g.list, history, lo, Min(w + RECOVERY_LIMIT, |history|))
  {
    RecoveryRowsSlice(history, w);
    assert LastCached(f.list) == w;
    AppendSlice(f.list, history, slots, lo, w, Min(w + RECOVERY_LIMIT, |history|), g.list);
  }

  /** Upserting the slice that follows a span extends the span. */
  lemma {:induction false} AppendSlice(list: seq<ClientMessage>, history: seq<ClientMessage>,
      slots: map<MessageId, nat>,
                                       lo: nat, hi: nat, to: nat, out: seq<ClientMessage>)
    requires Injective(slots) && DenseHistory(history) && Numbered(history, slots) && Ordered(list, slots)
    requires 1 <= lo <= hi <= to <= |history| && Spans(list, history, lo, hi) && out == UpsertAll(list, history[hi..to])
    ensures Ordered(out, slots) && Spans(out, history, lo, to)
  {
    var rows := history[hi..to];
    assert Numbered(rows, slots);
    UpsertAllMeaning(list, rows, slots);
    forall id ensures HasId(out, id) <==> InRange(history, lo - 1, to, id) {
      AppendedId(list, history, lo, hi, to, out, id);
    }
    SpanFromIds(out, history, slots, lo, to);
  }

  lemma {:induction false} AppendedId(list: seq<ClientMessage>, history: seq<ClientMessage>, lo: nat, hi: nat,
      to: nat, out: seq<ClientMessage>, id: MessageId)
    requires 1 <= lo <= hi <= to <= |history| && Spans(list, history, lo, hi)
    requires HasId(out, id) <==> HasId(list, id) || HasId(history[hi..to], id)
    ensures HasId(out, id) <==> InRange(history, lo - 1, to, id)
  {
    SpanIds(list, history, lo, hi, id);
    SliceIds(history, hi, to, id);
  }

  /**
   An outage that missed more than 100 messages leaves a hole the client no longer sees: the
   list snapshot lifts the known watermark over it, so later live events bring the first
   unfetched message back if and only if one of them is that very row.
   */
  lemma {:induction false} LongOutageLeavesHole(f: Feed, listed: nat, history: seq<ClientMessage>,
      slots: map<MessageId, nat>, lo: nat, w: nat,
                             hole: MessageId, events: seq<Created>)
    requires Injective(slots) && DenseHistory(history) && Numbered(history, slots) && Ordered(f.list, slots)
    requires 1 <= lo <= w && Spans(f.list, history, lo, w) && w + RECOVERY_LIMIT < listed <= |history|
    requires hole == Id(history[w + RECOVERY_LIMIT])
    requires forall k :: 0 <= k < |events| ==> Numbered([events[k].row], slots)
    requires forall k :: 0 <= k < |events| ==> DenseHistory(events[k].history) && Numbered(events[k].history, slots)
    ensures HasId(ReceiveAllCreated(Reconnect(f, listed, history), events).list, hole) <==> DeliveredAgain(events, hole)
  {
    var g := Reconnect(f, listed, history);
    ReconnectExtends(f, listed, history, slots, lo, w, g);
    BeyondSpan(g.list, history, slots, lo, w + RECOVERY_LIMIT);
    MissedRecoveryIsFinal(g, events, slots, hole);
  }

  lemma BeyondSpan(list: seq<ClientMessage>, history: seq<ClientMessage>, slots: map<MessageId, nat>, lo: nat, hi: nat)
    requires DenseHistory(history) && Numbered(history, slots) && hi < |history| && Spans(list, history, lo, hi)
    requires Numbered(list, slots)
    ensures !HasId(list, Id(history[hi])) && slots[Id(history[hi])] == hi + 1
  {
  }
}
