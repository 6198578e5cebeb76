/**
 One conversation's cached transcript: the list reducers of the web store, the snapshot
 merge shared by both clients, and why the order in which rows arrive does not matter.
 */
module Transcript {
  import opened Domain

  datatype ClientMessage = ClientMessage(message: Message, reactions: seq<Reaction>)

  function Id(m: ClientMessage): MessageId { m.message.id }

  function Sequence(m: ClientMessage): nat { m.message.sequence }

  predicate HasId(list: seq<ClientMessage>, id: MessageId) {
    exists i :: 0 <= i < |list| && Id(list[i]) == id
  }

  /** First row with the id, as Array.prototype.find. */
  function Find(list: seq<ClientMessage>, id: MessageId): Option<ClientMessage> {
    if list == [] then None
    else if Id(list[0]) == id then Some(list[0])
    else Find(list[1..], id)
  }

  // ---------- The stable sort by sequence ----------

  function Insert(list: seq<ClientMessage>, m: ClientMessage): seq<ClientMessage> {
    if list == [] then [m]
    else if Sequence(m) < Sequence(list[0]) then [m] + list
    else [list[0]] + Insert(list[1..], m)
  }

  function SortMessages(list: seq<ClientMessage>): seq<ClientMessage>
    decreases |list|
  {
    if list == [] then [] else Insert(SortMessages(list[..|list| - 1]), list[|list| - 1])
  }

  // ---------- Reducers ----------

  function ReplaceById(list: seq<ClientMessage>, m: ClientMessage): seq<ClientMessage> {
    seq(|list|, i requires 0 <= i < |list| => if Id(list[i]) == Id(m) then m else list[i])
  }

  /** upsertMessage: a known id is replaced in place, a new one is appended and sorted in. */
  function Upsert(list: seq<ClientMessage>, m: ClientMessage): seq<ClientMessage> {
    if HasId(list, Id(m)) then ReplaceById(list, m) else SortMessages(list + [m])
  }

  function Unknown(list: seq<ClientMessage>, page: seq<ClientMessage>): seq<ClientMessage> {
    if page == [] then []
    else (if HasId(list, Id(page[0])) then [] else [page[0]]) + Unknown(list, page[1..])
  }

  /** prependMessages: rows of the page whose id is not cached yet are merged in. */
  function Prepend(list: seq<ClientMessage>, page: seq<ClientMessage>): seq<ClientMessage> {
    SortMessages(list + Unknown(list, page))
  }

  /** Map.set on an insertion-ordered map keyed by id. */
  function MapSet(rows: seq<ClientMessage>, m: ClientMessage): seq<ClientMessage> {
    if HasId(rows, Id(m)) then ReplaceById(rows, m) else rows + [m]
  }

  function MapSetAll(rows: seq<ClientMessage>, page: seq<ClientMessage>): seq<ClientMessage>
    decreases |page|
  {
    if page == [] then rows else MapSet(MapSetAll(rows, page[..|page| - 1]), page[|page| - 1])
  }

  function MergeSnapshot(snapshot: seq<ClientMessage>, live: seq<ClientMessage>): seq<ClientMessage> {
    SortMessages(MapSetAll(MapSetAll([], snapshot), live))
  }

  /** mergeMessageSnapshot, with its local map filled row by row. */
  method MergeMessageSnapshot(snapshot: seq<ClientMessage>,
      live: seq<ClientMessage>) returns (merged: seq<ClientMessage>)
    ensures merged == MergeSnapshot(snapshot, live)
  {
    var rows: seq<ClientMessage> := [];
    for i := 0 to |snapshot|
      invariant rows == MapSetAll([], snapshot[..i])
    {
      assert snapshot[..i + 1][..i] == snapshot[..i];
      rows := MapSet(rows, snapshot[i]);
    }
    assert snapshot[..|snapshot|] == snapshot;
    ghost var base := rows;
    for i := 0 to |live|
      invariant rows == MapSetAll(base, live[..i])
    {
      assert live[..i + 1][..i] == live[..i];
      rows := MapSet(rows, live[i]);
    }
    assert live[..|live|] == live;
    merged := SortMessages(rows);
  }

  // ---------- What every transcript keeps ----------

  predicate StrictlySorted(list: seq<ClientMessage>) {
    forall i, j :: 0 <= i < j < |list| ==> Sequence(list[i]) < Sequence(list[j])
  }

  predicate DistinctIds(list: seq<ClientMessage>) {
    forall i, j :: 0 <= i < j < |list| ==> Id(list[i]) != Id(list[j])
  }

  /** Rows of one id share one sequence, and sequences are unique: the authority's dense numbering. */
  ghost predicate Injective(slots: map<MessageId, nat>) {
    forall x, y :: x in slots && y in slots && slots[x] == slots[y] ==> x == y
  }

  predicate Numbered(list: seq<ClientMessage>, slots: map<MessageId, nat>) {
    forall i :: 0 <= i < |list| ==> Id(list[i]) in slots && slots[Id(list[i])] == Sequence(list[i])
  }

  /** A well-formed transcript over the numbering. */
  ghost predicate Ordered(list: seq<ClientMessage>, slots: map<MessageId, nat>) {
    StrictlySorted(list) && Numbered(list, slots)
  }

  predicate DistinctSequences(list: seq<ClientMessage>) {
    forall i, j :: 0 <= i < j < |list| ==> Sequence(list[i]) != Sequence(list[j])
  }

  lemma {:induction false} InsertMembers(list: seq<ClientMessage>, m: ClientMessage)
    ensures |Insert(list, m)| == |list| + 1
    ensures forall x :: x in Insert(list, m) <==> x in list || x == m
  {
    if list != [] {
      assert list == [list[0]] + list[1..];
      InsertMembers(list[1..], m);
    }
  }

  lemma {:induction false} InsertStrict(list: seq<ClientMessage>, m: ClientMessage)
    requires StrictlySorted(list) && forall x :: x in list ==> Sequence(x) != Sequence(m)
    ensures StrictlySorted(Insert(list, m))
  {
    if list != [] && Sequence(m) > Sequence(list[0]) {
      InsertStrict(list[1..], m);
      InsertMembers(list[1..], m);
      var r := Insert(list[1..], m);
      forall i | 0 <= i < |r| ensures Sequence(list[0]) < Sequence(r[i]) {
        assert r[i] in r;
      }
    }
  }

  lemma {:induction false} SortStrict(list: seq<ClientMessage>)
    requires DistinctSequences(list)
    ensures StrictlySorted(SortMessages(list))
    ensures forall x :: x in SortMessages(list) <==> x in list
    decreases |list|
  {
    if list != [] {
      var front, last := list[..|list| - 1], list[|list| - 1];
      assert list == front + [last];
      SortStrict(front);
      InsertMembers(SortMessages(front), last);
      forall x | x in SortMessages(front) ensures Sequence(x) != Sequence(last) {
        var i :| 0 <= i < |front| && front[i] == x;
        assert list[i] == x;
      }
      InsertStrict(SortMessages(front), last);
    }
  }

  lemma {:induction false} FindIsMember(list: seq<ClientMessage>, id: MessageId)
    ensures Find(list, id).Some? <==> HasId(list, id)
    ensures Find(list, id).Some? ==> Find(list, id).value in list && Id(Find(list, id).value) == id
    ensures DistinctIds(list) ==> forall x :: x in list && Id(x) == id ==> Find(list, id) == Some(x)
  {
    if list != [] {
      FindIsMember(list[1..], id);
      assert list == [list[0]] + list[1..];
      if HasId(list, id) && Id(list[0]) != id {
        var i :| 0 <= i < |list| && Id(list[i]) == id;
        assert Id(list[1..][i - 1]) == id;
      }
    }
  }

  /** Sorting a list of distinct ids over an injective numbering gives its ordered form. */
  lemma {:induction false} SortOrders(list: seq<ClientMessage>, slots: map<MessageId, nat>)
    requires Injective(slots) && Numbered(list, slots) && DistinctIds(list)
    ensures Ordered(SortMessages(list), slots)
    ensures forall x :: x in SortMessages(list) <==> x in list
  {
    assert DistinctSequences(list);
    SortStrict(list);
    var r := SortMessages(list);
    forall i | 0 <= i < |r| ensures Id(r[i]) in slots && slots[Id(r[i])] == Sequence(r[i]) {
      assert r[i] in list;
    }
  }

  lemma OrderedDistinct(list: seq<ClientMessage>, slots: map<MessageId, nat>)
    requires Ordered(list, slots)
    ensures DistinctIds(list)
  {
  }

  /** Lists with the same members find the same rows. */
  lemma {:induction false} SameFind(a: seq<ClientMessage>, b: seq<ClientMessage>, id: MessageId)
    requires DistinctIds(a) && DistinctIds(b) && forall x :: x in a <==> x in b
    ensures Find(a, id) == Find(b, id)
  {
    FindIsMember(a, id);
    FindIsMember(b, id);
  }

  // ---------- Meaning of each reducer, row by row ----------

  lemma {:induction false} FindReplaced(list: seq<ClientMessage>, m: ClientMessage, id: MessageId)
    ensures Find(ReplaceById(list, m), id)
         == if id == Id(m) && HasId(list, id) then Some(m) else Find(list, id)
  {
    if list != [] {
      var r := ReplaceById(list, m);
      assert r[1..] == ReplaceById(list[1..], m);
      FindReplaced(list[1..], m, id);
      FindIsMember(list, id);
      FindIsMember(list[1..], id);
    }
  }

  lemma {:induction false} FindAppended(a: seq<ClientMessage>, b: seq<ClientMessage>, id: MessageId)
    ensures Find(a + b, id) == if HasId(a, id) then Find(a, id) else Find(b, id)
  {
    FindIsMember(a, id);
    if a == [] {
      assert a + b == b;
    } else {
      assert (a + b)[1..] == a[1..] + b;
      FindAppended(a[1..], b, id);
      FindIsMember(a[1..], id);
    }
  }

  lemma {:induction false} UpsertMeaning(list: seq<ClientMessage>, m: ClientMessage, slots: map<MessageId, nat>)
    requires Injective(slots) && Ordered(list, slots) && Numbered([m], slots)
    ensures Ordered(Upsert(list, m), slots)
    ensures forall id :: Find(Upsert(list, m), id) == if id == Id(m) then Some(m) else Find(list, id)
  {
    assert Id(m) == Id([m][0]);
    if HasId(list, Id(m)) {
      forall id ensures Find(Upsert(list, m), id) == if id == Id(m) then Some(m) else Find(list, id) {
        FindReplaced(list, m, id);
      }
    } else {
      SortOrders(list + [m], slots);
      OrderedDistinct(SortMessages(list + [m]), slots);
      forall id ensures Find(Upsert(list, m), id) == if id == Id(m) then Some(m) else Find(list, id) {
        SameFind(SortMessages(list + [m]), list + [m], id);
        FindAppended(list, [m], id);
        FindIsMember(list, id);
      }
    }
  }

  lemma {:induction false} UnknownMeaning(list: seq<ClientMessage>, page: seq<ClientMessage>,
      slots: map<MessageId, nat>)
    requires Numbered(page, slots) && DistinctIds(page)
    ensures var unseen := Unknown(list, page);
      && Numbered(unseen, slots) && DistinctIds(unseen)
      && (forall x :: x in unseen <==> x in page && !HasId(list, Id(x)))
    decreases |page|
  {
    if page != [] {
      assert page == [page[0]] + page[1..];
      UnknownMeaning(list, page[1..], slots);
    }
  }

  lemma {:induction false} PrependMeaning(list: seq<ClientMessage>, page: seq<ClientMessage>,
      slots: map<MessageId, nat>)
    requires Injective(slots) && Ordered(list, slots) && Numbered(page, slots) && DistinctIds(page)
    ensures Ordered(Prepend(list, page), slots)
    ensures forall id :: Find(Prepend(list, page), id) == if HasId(list, id) then Find(list, id) else Find(page, id)
  {
    var unseen := Unknown(list, page);
    UnknownMeaning(list, page, slots);
    var joined := list + unseen;
    forall i, j | 0 <= i < j < |joined| ensures Id(joined[i]) != Id(joined[j]) {
      if i < |list| <= j { assert joined[j] in unseen && Id(list[i]) == Id(joined[i]); }
    }
    SortOrders(joined, slots);
    OrderedDistinct(SortMessages(joined), slots);
    forall id ensures Find(Prepend(list, page), id) == if HasId(list, id) then Find(list, id) else Find(page, id) {
      SameFind(SortMessages(joined), joined, id);
      FindAppended(list, unseen, id);
      FindIsMember(unseen, id);
      FindIsMember(page, id);
    }
  }

  lemma {:induction false} MapSetMeaning(rows: seq<ClientMessage>, m: ClientMessage, slots: map<MessageId, nat>)
    requires Numbered(rows, slots) && DistinctIds(rows) && Numbered([m], slots)
    ensures Numbered(MapSet(rows, m), slots) && DistinctIds(MapSet(rows, m))
    ensures forall id :: Find(MapSet(rows, m), id) == if id == Id(m) then Some(m) else Find(rows, id)
  {
    assert Id(m) == Id([m][0]);
    forall id ensures Find(MapSet(rows, m), id) == if id == Id(m) then Some(m) else Find(rows, id) {
      FindReplaced(rows, m, id);
      FindAppended(rows, [m], id);
      FindIsMember(rows, id);
    }
  }

  lemma {:induction false} MapSetAllMeaning(rows: seq<ClientMessage>, page: seq<ClientMessage>,
      slots: map<MessageId, nat>)
    requires Numbered(rows, slots) && DistinctIds(rows) && Numbered(page, slots) && DistinctIds(page)
    ensures var r := MapSetAll(rows, page);
      && Numbered(r, slots) && DistinctIds(r)
      && forall id :: Find(r, id) == if HasId(page, id) then Find(page, id) else Find(rows, id)
    decreases |page|
  {
    if page != [] {
      var front, last := page[..|page| - 1], page[|page| - 1];
      assert page == front + [last];
      MapSetAllMeaning(rows, front, slots);
      assert [last][0] == last;
      MapSetMeaning(MapSetAll(rows, front), last, slots);
      forall id ensures Find(MapSetAll(rows, page), id) == if HasId(page, id) then Find(page, id) else Find(rows, id) {
        FindAppended(front, [last], id);
        FindIsMember(front, id);
        FindIsMember(page, id);
      }
    }
  }

  /** The snapshot merge: ordered, the live row wins by id, snapshot rows fill the rest. */
  lemma {:induction false} MergeMeaning(snapshot: seq<ClientMessage>, live: seq<ClientMessage>,
      slots: map<MessageId, nat>)
    requires Injective(slots) && Ordered(live, slots) && Numbered(snapshot, slots) && DistinctIds(snapshot)
    ensures Ordered(MergeSnapshot(snapshot, live), slots)
    ensures forall id :: Find(MergeSnapshot(snapshot, live), id) == if HasId(live, id) then Find(live, id)
         else Find(snapshot, id)
  {
    OrderedDistinct(live, slots);
    MapSetAllMeaning([], snapshot, slots);
    var base := MapSetAll([], snapshot);
    MapSetAllMeaning(base, live, slots);
    var rows := MapSetAll(base, live);
    SortOrders(rows, slots);
    OrderedDistinct(SortMessages(rows), slots);
    forall id ensures Find(SortMessages(rows), id) == if HasId(live, id) then Find(live, id) else Find(snapshot, id) {
      SameFind(SortMessages(rows), rows, id);
      FindIsMember(snapshot, id);
    }
  }

  // ---------- Arrival order does not matter ----------

  /** A way rows reach the transcript: a realtime event, an older page, a history snapshot. */
  datatype Arrival = Live(row: ClientMessage) | OlderPage(page: seq<ClientMessage>) | Snapshot(page: seq<ClientMessage>)

  function RowsOf(a: Arrival): seq<ClientMessage> {
    if a.Live? then [a.row] else a.page
  }

  function Receive(list: seq<ClientMessage>, a: Arrival): seq<ClientMessage> {
    match a
    case Live(row) => Upsert(list, row)
    case OlderPage(page) => Prepend(list, page)
    case Snapshot(page) => MergeSnapshot(page, list)
  }

  function ReceiveAll(list: seq<ClientMessage>, arrivals: seq<Arrival>): seq<ClientMessage>
    decreases |arrivals|
  {
    if arrivals == [] then list else ReceiveAll(Receive(list, arrivals[0]), arrivals[1..])
  }

  /** Rows come from one authority: numbered consistently, and a REST page lists each id once. */
  predicate FromServer(arrivals: seq<Arrival>, slots: map<MessageId, nat>) {
    forall k :: 0 <= k < |arrivals| ==> Numbered(RowsOf(arrivals[k]), slots) && DistinctIds(RowsOf(arrivals[k]))
  }

  predicate Delivered(arrivals: seq<Arrival>, id: MessageId) {
    exists k :: 0 <= k < |arrivals| && HasId(RowsOf(arrivals[k]), id)
  }

  lemma {:induction false} ReceiveMeaning(list: seq<ClientMessage>, a: Arrival, slots: map<MessageId, nat>)
    requires Injective(slots) && Ordered(list, slots) && Numbered(RowsOf(a), slots) && DistinctIds(RowsOf(a))
    ensures Ordered(Receive(list, a), slots)
    ensures forall id :: HasId(Receive(list, a), id) <==> HasId(list, id) || HasId(RowsOf(a), id)
  {
    match a {
      case Live(row) => UpsertMeaning(list, row, slots);
      case OlderPage(page) => PrependMeaning(list, page, slots);
      case Snapshot(page) => MergeMeaning(page, list, slots);
    }
    forall id ensures HasId(Receive(list, a), id) <==> HasId(list, id) || HasId(RowsOf(a), id) {
      FindIsMember(Receive(list, a), id);
      FindIsMember(list, id);
      FindIsMember(RowsOf(a), id);
      if a.Live? && id == Id(a.row) { assert Id(RowsOf(a)[0]) == id; }
    }
  }

  lemma {:induction false} ReceiveAllMeaning(list: seq<ClientMessage>, arrivals: seq<Arrival>,
      slots: map<MessageId, nat>)
    requires Injective(slots) && Ordered(list, slots) && FromServer(arrivals, slots)
    ensures Ordered(ReceiveAll(list, arrivals), slots)
    ensures forall id :: HasId(ReceiveAll(list, arrivals), id) <==> HasId(list, id) || Delivered(arrivals, id)
    decreases |arrivals|
  {
    if arrivals != [] {
      ReceiveMeaning(list, arrivals[0], slots);
      var rest := arrivals[1..];
      assert FromServer(rest, slots);
      ReceiveAllMeaning(Receive(list, arrivals[0]), rest, slots);
      forall id ensures Delivered(arrivals, id) <==> HasId(RowsOf(arrivals[0]), id) || Delivered(rest, id) {
        if Delivered(rest, id) {
          var k :| 0 <= k < |rest| && HasId(RowsOf(rest[k]), id);
          assert HasId(RowsOf(arrivals[k + 1]), id);
        }
        if Delivered(arrivals, id) && !HasId(RowsOf(arrivals[0]), id) {
          var k :| 0 <= k < |arrivals| && HasId(RowsOf(arrivals[k]), id);
          assert HasId(RowsOf(rest[k - 1]), id);
        }
      }
    }
  }

  lemma {:induction false} SkeletonUnique(a: seq<ClientMessage>, b: seq<ClientMessage>, slots: map<MessageId, nat>)
    requires Ordered(a, slots) && Ordered(b, slots) && Injective(slots)
    requires forall id :: HasId(a, id) <==> HasId(b, id)
    ensures |a| == |b|
    ensures forall i :: 0 <= i < |a| ==> Id(a[i]) == Id(b[i]) && Sequence(a[i]) == Sequence(b[i])
    decreases |a|
  {
    if a == [] {
      if b != [] { assert HasId(b, Id(b[0])); }
    } else {
      assert HasId(a, Id(a[0]));
      assert b != [];
      assert HasId(b, Id(b[0]));
      var j :| 0 <= j < |b| && Id(b[j]) == Id(a[0]);
      var i :| 0 <= i < |a| && Id(a[i]) == Id(b[0]);
      assert Id(a[0]) == Id(b[0]);
      TailIds(a, slots);
      TailIds(b, slots);
      SkeletonUnique(a[1..], b[1..], slots);
    }
  }

  lemma TailIds(a: seq<ClientMessage>, slots: map<MessageId, nat>)
    requires Ordered(a, slots) && a != []
    ensures Ordered(a[1..], slots)
    ensures forall id :: HasId(a[1..], id) <==> HasId(a, id) && id != Id(a[0])
  {
  }

  /**
   Order-independent transcript: however realtime rows, older pages and history snapshots of
   one authority interleave, the transcript is strictly increasing with exactly the ids that
   arrived; so two clients that received the same ids hold the same ids in the same places.
   */
  lemma {:induction false} OrderIndependent(one: seq<Arrival>, other: seq<Arrival>, slots: map<MessageId, nat>)
    requires Injective(slots) && FromServer(one, slots) && FromServer(other, slots)
    requires forall id :: Delivered(one, id) <==> Delivered(other, id)
    ensures var a, b := ReceiveAll([], one), ReceiveAll([], other);
      && StrictlySorted(a) && DistinctIds(a)
      && (forall id :: HasId(a, id) <==> Delivered(one, id))
      && |a| == |b|
      && forall i :: 0 <= i < |a| ==> Id(a[i]) == Id(b[i]) && Sequence(a[i]) == Sequence(b[i])
  {
    ReceiveAllMeaning([], one, slots);
    ReceiveAllMeaning([], other, slots);
    OrderedDistinct(ReceiveAll([], one), slots);
    SkeletonUnique(ReceiveAll([], one), ReceiveAll([], other), slots);
  }
}
