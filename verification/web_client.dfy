/**
 The web client: the chat store's reducers, event routing, the buffer held back while a
 snapshot is fetched, and gap recovery. Routing one canonical event is shown to be one
 `Replay.Apply`, so everything proved about streams of events holds on the screen.
 */
module WebClient {
  import opened Domain
  import opened Replay
  import opened Transcript
  import opened Receipts
  import H = History

  /** A sidebar entry. */
  datatype Entry = Entry(id: ConversationId, lastSequence: nat, members: seq<WatermarkMember>)

  /** An event as delivered; `roster` is the order in which conversation.created lists its members. */
  datatype Envelope = Envelope(event: Event, roster: seq<UserId>)

  /** A requested GET of the messages after a sequence. */
  datatype Fetch = Fetch(conversationId: ConversationId, after: nat)

  type Cache = map<ConversationId, seq<ClientMessage>>

  // ---------- Reducers over the transcript cache ----------

  function Cached(cache: Cache, c: ConversationId): seq<ClientMessage> {
    if c in cache then cache[c] else []
  }

  function UpsertIn(cache: Cache, m: ClientMessage): Cache {
    cache[m.message.conversationId := Upsert(Cached(cache, m.message.conversationId), m)]
  }

  /** What updateMessage, removeMessage and applyReaction write into the row they target. */
  datatype Patch = Edited(content: string) | Removed | Present(reaction: Reaction) | Absent(reaction: Reaction)

  function Without(reactions: seq<Reaction>, r: Reaction): seq<Reaction> {
    if reactions == [] then []
    else (if reactions[0] == r then [] else [reactions[0]]) + Without(reactions[1..], r)
  }

  function Patched(m: ClientMessage, p: Patch): ClientMessage {
    match p
    case Edited(content) => m.(message := m.message.(content := content, edited := true))
    case Removed => m.(message := m.message.(content := "", deleted := true))
    case Present(r) => if r in m.reactions then m else m.(reactions := m.reactions + [r])
    case Absent(r) => if r !in m.reactions then m else m.(reactions := Without(m.reactions, r))
  }

  function PatchList(list: seq<ClientMessage>, id: MessageId, p: Patch): seq<ClientMessage> {
    seq(|list|, i requires 0 <= i < |list| => if Id(list[i]) == id then Patched(list[i], p) else list[i])
  }

  /** Only the named conversation's list is touched, or every list when that one is not cached. */
  function PatchIn(cache: Cache, c: ConversationId, id: MessageId, p: Patch): Cache {
    if c in cache then cache[c := PatchList(cache[c], id, p)]
    else map d | d in cache :: PatchList(cache[d], id, p)
  }

  // ---------- Reducers over the conversation list ----------

  function FindEntry(list: seq<Entry>, c: ConversationId): Option<Entry> {
    if list == [] then None else if list[0].id == c then Some(list[0]) else FindEntry(list[1..], c)
  }

  function MapEntry(list: seq<Entry>, c: ConversationId, f: Entry -> Entry): seq<Entry> {
    seq(|list|, i requires 0 <= i < |list| => if list[i].id == c then f(list[i]) else list[i])
  }

  function UpsertEntry(list: seq<Entry>, e: Entry): seq<Entry> {
    if FindEntry(list, e.id).Some? then MapEntry(list, e.id, _ => e) else [e] + list
  }

  function RemoveEntry(list: seq<Entry>, c: ConversationId): seq<Entry> {
    if list == [] then [] else (if list[0].id == c then [] else [list[0]]) + RemoveEntry(list[1..], c)
  }

  /** applyMessageActivity: the sequence never regresses. */
  function Active(e: Entry, sequence: nat): Entry {
    if sequence <= e.lastSequence then e else e.(lastSequence := sequence)
  }

  function ReadBy(e: Entry, u: UserId, s: nat): Entry {
    e.(members := RaiseMembers(e.members, u, s))
  }

  function WithActivity(list: seq<Entry>, c: ConversationId, sequence: nat): seq<Entry> {
    MapEntry(list, c, x => Active(x, sequence))
  }

  function WithReceipt(list: seq<Entry>, c: ConversationId, u: UserId, s: nat): seq<Entry> {
    MapEntry(list, c, x => ReadBy(x, u, s))
  }

  function Unread(roster: seq<UserId>): seq<WatermarkMember> {
    seq(|roster|, i requires 0 <= i < |roster| => WatermarkMember(roster[i], 0))
  }

  // ---------- One canonical event ----------

  function PatchOf(e: Event): Patch
    requires e.MessageEdited? || e.MessageDeleted? || e.ReactionAdded? || e.ReactionRemoved?
  {
    match e
    case MessageEdited(_, _, content) => Edited(content)
    case MessageDeleted(_, _) => Removed
    case ReactionAdded(_, _, r) => Present(r)
    case ReactionRemoved(_, _, r) => Absent(r)
  }

  function NextCache(self: UserId, cache: Cache, e: Event): Cache {
    match e
    case MessageCreated(m) => UpsertIn(cache, ClientMessage(m, []))
    case ConversationDeleted(c, members) => if Leaves(self, members) then cache - {c} else cache
    case ConversationCreated(_, _) => cache
    case ReceiptRead(_, _, _, _) => cache
    case ReceiptDelivered(_, _, _, _) => cache
    case _ => PatchIn(cache, e.conversationId, e.messageId, PatchOf(e))
  }

  function NextList(self: UserId, list: seq<Entry>, envelope: Envelope): seq<Entry> {
    match envelope.event
    case ConversationCreated(c, members) =>
      if self in members then UpsertEntry(list, Entry(c, 0, Unread(envelope.roster))) else list
    case ConversationDeleted(c, members) => if Leaves(self, members) then RemoveEntry(list, c) else list
    case MessageCreated(m) => WithActivity(list, m.conversationId, m.sequence)
    case ReceiptRead(c, u, s, recipient) => if recipient == self then WithReceipt(list, c, u, s) else list
    case _ => list
  }

  // ---------- What the screen represents ----------

  /** Where the authority placed a message. */
  datatype Place = Place(conversationId: ConversationId, sequence: nat)

  type Registry = map<MessageId, Place>

  ghost predicate Consistent(reg: Registry) {
    forall x, y :: x in reg && y in reg && reg[x] == reg[y] ==> x == y
  }

  function Slots(reg: Registry, c: ConversationId): map<MessageId, nat> {
    map id | id in reg && reg[id].conversationId == c :: reg[id].sequence
  }

  predicate EventPlaced(reg: Registry, e: Event) {
    match e
    case MessageCreated(m) => m.id in reg && reg[m.id] == Place(m.conversationId, m.sequence)
    case MessageEdited(c, id, _) => id in reg && reg[id].conversationId == c
    case MessageDeleted(c, id) => id in reg && reg[id].conversationId == c
    case ReactionAdded(c, id, _) => id in reg && reg[id].conversationId == c
    case ReactionRemoved(c, id, _) => id in reg && reg[id].conversationId == c
    case _ => true
  }

  predicate RosterListed(envelope: Envelope) {
    envelope.event.ConversationCreated? ==> (set u | u in envelope.roster) == envelope.event.members
  }

  /** Every list strictly increasing, over the authority's numbering, with its own conversation's rows. */
  ghost predicate Tidy(cache: Cache, reg: Registry) {
    forall c | c in cache ::
      Ordered(cache[c], Slots(reg, c)) && forall i :: 0 <= i < |cache[c]| ==> cache[c][i].message.conversationId == c
  }

  function Lookup(cache: Cache, reg: Registry, id: MessageId): Option<ClientMessage> {
    if id in reg then Find(Cached(cache, reg[id].conversationId), id) else None
  }

  function Seen(row: Option<ClientMessage>): Option<RowView> {
    if row.None? then None else Some(RowView(row.value.message, set r | r in row.value.reactions))
  }

  ghost predicate RowsShow(cache: Cache, reg: Registry, rows: map<MessageId, RowView>) {
    forall id :: Get(rows, id) == Seen(Lookup(cache, reg, id))
  }

  ghost predicate MembersShow(members: seq<WatermarkMember>, read: map<UserId, nat>) {
    && (forall u :: u in read <==> exists i :: 0 <= i < |members| && members[i].userId == u)
    && (forall i :: 0 <= i < |members| ==>
          members[i].userId in read && read[members[i].userId] == members[i].lastReadSequence)
  }

  ghost predicate EntryShows(e: Option<Entry>, v: Option<ConversationView>) {
    && e.Some? == v.Some?
    && (e.Some? ==> e.value.lastSequence == v.value.lastSequence && MembersShow(e.value.members, v.value.read))
  }

  ghost predicate ListShows(list: seq<Entry>, entries: map<ConversationId, ConversationView>) {
    forall c :: EntryShows(FindEntry(list, c), Get(entries, c))
  }

  // ---------- Rows ----------

  lemma SlotsInjective(reg: Registry, c: ConversationId)
    requires Consistent(reg)
    ensures Injective(Slots(reg, c))
  {
  }

  /** A list holds no row the registry places elsewhere. */
  lemma {:induction false} FoundAtHome(cache: Cache, reg: Registry, c: ConversationId, id: MessageId)
    requires Tidy(cache, reg) && c in cache
    ensures Find(cache[c], id).Some? ==>
      id in reg && reg[id].conversationId == c && Find(cache[c], id).value.message.conversationId == c
  {
    FindIsMember(cache[c], id);
    if Find(cache[c], id).Some? {
      var i :| 0 <= i < |cache[c]| && cache[c][i] == Find(cache[c], id).value;
      assert Id(cache[c][i]) in Slots(reg, c);
    }
  }

  lemma {:induction false} UpsertTidy(cache: Cache, reg: Registry, m: ClientMessage, next: Cache)
    requires Consistent(reg) && Tidy(cache, reg) && next == UpsertIn(cache, m)
    requires Id(m) in reg && reg[Id(m)] == Place(m.message.conversationId, Sequence(m))
    ensures Tidy(next, reg)
    ensures forall id :: Lookup(next, reg, id) == if id == Id(m) then Some(m) else Lookup(cache, reg, id)
  {
    var c := m.message.conversationId;
    UpsertList(Cached(cache, c), reg, c, m);
    UpsertHome(Cached(cache, c), m, c);
    forall id ensures Lookup(next, reg, id) == if id == Id(m) then Some(m) else Lookup(cache, reg, id) {
      if id in reg && reg[id].conversationId == c { assert Cached(next, c) == Upsert(Cached(cache, c), m); }
    }
  }

  lemma {:induction false} UpsertList(list: seq<ClientMessage>, reg: Registry, c: ConversationId, m: ClientMessage)
    requires Consistent(reg) && Ordered(list, Slots(reg, c)) && Id(m) in reg && reg[Id(m)] == Place(c, Sequence(m))
    ensures Ordered(Upsert(list, m), Slots(reg, c))
    ensures forall id :: Find(Upsert(list, m), id) == if id == Id(m) then Some(m) else Find(list, id)
  {
    SlotsInjective(reg, c);
    assert Id([m][0]) in Slots(reg, c);
    UpsertMeaning(list, m, Slots(reg, c));
  }

  lemma {:induction false} UpsertHome(list: seq<ClientMessage>, m: ClientMessage, c: ConversationId)
    requires m.message.conversationId == c && forall i :: 0 <= i < |list| ==> list[i].message.conversationId == c
    ensures forall i :: 0 <= i < |Upsert(list, m)| ==> Upsert(list, m)[i].message.conversationId == c
  {
    SortMembers(list + [m]);
    var r := Upsert(list, m);
    forall i | 0 <= i < |r| ensures r[i].message.conversationId == c {
      if !HasId(list, Id(m)) { assert r[i] in list + [m]; }
    }
  }

  lemma {:induction false} SortMembers(list: seq<ClientMessage>)
    ensures forall x :: x in SortMessages(list) <==> x in list
    decreases |list|
  {
    if list != [] {
      var front, last := list[..|list| - 1], list[|list| - 1];
      assert list == front + [last];
      SortMembers(front);
      InsertMembers(SortMessages(front), last);
    }
  }

  function PatchedAt(found: Option<ClientMessage>, id: MessageId, p: Patch): Option<ClientMessage> {
    if found.Some? && Id(found.value) == id then Some(Patched(found.value, p)) else found
  }

  lemma {:induction false} FindPatched(list: seq<ClientMessage>, id: MessageId, p: Patch, x: MessageId)
    ensures Find(PatchList(list, id, p), x) == PatchedAt(Find(list, x), id, p)
  {
    if list != [] {
      assert PatchList(list, id, p)[1..] == PatchList(list[1..], id, p);
      FindPatched(list[1..], id, p, x);
    }
  }

  lemma PatchListOrdered(list: seq<ClientMessage>, reg: Registry, c: ConversationId, id: MessageId, p: Patch)
    requires Ordered(list, Slots(reg, c)) && forall i :: 0 <= i < |list| ==> list[i].message.conversationId == c
    ensures Ordered(PatchList(list, id, p), Slots(reg, c))
    ensures forall i :: 0 <= i < |list| ==> PatchList(list, id, p)[i].message.conversationId == c
  {
  }

  lemma {:induction false} PatchLookup(cache: Cache, reg: Registry, c: ConversationId, id: MessageId, p: Patch,
      next: Cache, x: MessageId)
    requires id in reg && reg[id].conversationId == c && next == PatchIn(cache, c, id, p)
    ensures Lookup(next, reg, x) == PatchedAt(Lookup(cache, reg, x), id, p)
  {
    if x in reg && reg[x].conversationId in cache {
      var list := cache[reg[x].conversationId];
      FindPatched(list, id, p, x);
      FindIsMember(list, x);
    }
  }

  lemma {:induction false} PatchTidy(cache: Cache, reg: Registry, c: ConversationId, id: MessageId, p: Patch,
      next: Cache)
    requires Tidy(cache, reg) && next == PatchIn(cache, c, id, p)
    ensures Tidy(next, reg)
  {
    forall d | d in cache ensures next[d] == cache[d] || next[d] == PatchList(cache[d], id, p) {
    }
    forall d | d in next
      ensures Ordered(next[d], Slots(reg, d))
      ensures forall i :: 0 <= i < |next[d]| ==> next[d][i].message.conversationId == d
    {
      PatchListOrdered(cache[d], reg, d, id, p);
    }
  }

  lemma {:induction false} WithoutMembers(reactions: seq<Reaction>, r: Reaction)
    ensures forall x :: x in Without(reactions, r) <==> x in reactions && x != r
  {
    if reactions != [] {
      WithoutMembers(reactions[1..], r);
      assert reactions == [reactions[0]] + reactions[1..];
    }
  }

  /** A patch is the row step of its event. */
  lemma {:induction false} PatchIsRowStep(self: UserId, m: ClientMessage, e: Event)
    requires e.MessageEdited? || e.MessageDeleted? || e.ReactionAdded? || e.ReactionRemoved?
    ensures Seen(Some(Patched(m, PatchOf(e)))) == RowStep(self, Seen(Some(m)), e, e.messageId)
  {
    var before := set x | x in m.reactions;
    match e
    case ReactionAdded(_, _, r) =>
      assert (set x | x in m.reactions + [r]) == before + {r};
      if r in m.reactions { assert before + {r} == before; }
    case ReactionRemoved(_, _, r) =>
      WithoutMembers(m.reactions, r);
      assert (set x | x in Without(m.reactions, r)) == before - {r};
      if r !in m.reactions { assert before - {r} == before; }
    case _ =>
  }

  lemma {:induction false} NewRowSeen(m: Message)
    ensures Seen(Some(ClientMessage(m, []))) == Some(RowView(m, {}))
  {
    var row := ClientMessage(m, []);
    assert (set r | r in row.reactions) == {};
  }

  lemma {:induction false} PatchedRow(self: UserId, cache: Cache, reg: Registry, e: Event, next: Cache, id: MessageId)
    requires e.MessageEdited? || e.MessageDeleted? || e.ReactionAdded? || e.ReactionRemoved?
    requires EventPlaced(reg, e) && next == PatchIn(cache, e.conversationId, e.messageId, PatchOf(e))
    ensures Seen(Lookup(next, reg, id)) == RowStep(self, Seen(Lookup(cache, reg, id)), e, id)
  {
    PatchLookup(cache, reg, e.conversationId, e.messageId, PatchOf(e), next, id);
    var found := Lookup(cache, reg, id);
    if found.Some? {
      FindIsMember(cache[reg[id].conversationId], id);
      PatchIsRowStep(self, found.value, e);
    }
  }

  lemma {:induction false} CreatedRows(cache: Cache, reg: Registry, m: Message, next: Cache, self: UserId,
      id: MessageId)
    requires Consistent(reg) && Tidy(cache, reg) && EventPlaced(reg, MessageCreated(m))
    requires next == UpsertIn(cache, ClientMessage(m, []))
    ensures Tidy(next, reg)
    ensures Seen(Lookup(next, reg, id)) == RowStep(self, Seen(Lookup(cache, reg, id)), MessageCreated(m), id)
  {
    UpsertTidy(cache, reg, ClientMessage(m, []), next);
    NewRowSeen(m);
  }

  lemma {:induction false} RowsStep(self: UserId, cache: Cache, reg: Registry, v: View, e: Event, next: Cache)
    requires Consistent(reg) && Tidy(cache, reg) && RowsShow(cache, reg, v.rows) && EventPlaced(reg, e)
    requires next == NextCache(self, cache, e)
    ensures Tidy(next, reg) && RowsShow(next, reg, Apply(self, v, e).rows)
  {
    match e {
      case MessageCreated(m) => CreatedRows(cache, reg, m, next, self, m.id);
      case ConversationDeleted(_, _) => DeletedRows(self, cache, reg, v, e, next);
      case ConversationCreated(_, _) =>
      case ReceiptRead(_, _, _, _) =>
      case ReceiptDelivered(_, _, _, _) =>
      case _ => PatchTidy(cache, reg, e.conversationId, e.messageId, PatchOf(e), next);
    }
    forall id
      ensures Get(Apply(self, v, e).rows, id) == Seen(Lookup(next, reg, id))
    {
      RowStepAt(self, cache, reg, v, e, next, id);
    }
  }

  lemma {:induction false} RowStepAt(self: UserId, cache: Cache, reg: Registry, v: View, e: Event, next: Cache,
      id: MessageId)
    requires Consistent(reg) && Tidy(cache, reg) && RowsShow(cache, reg, v.rows) && EventPlaced(reg, e)
    requires next == NextCache(self, cache, e)
    ensures Get(Apply(self, v, e).rows, id) == Seen(Lookup(next, reg, id))
  {
    ApplyAt(self, v, e, id, 0);
    assert Get(v.rows, id) == Seen(Lookup(cache, reg, id));
    if e.MessageCreated? {
      CreatedRows(cache, reg, e.message, next, self, id);
    } else if e.ConversationDeleted? {
      DeletedRows(self, cache, reg, v, e, next);
    } else if e.MessageEdited? || e.MessageDeleted? || e.ReactionAdded? || e.ReactionRemoved? {
      PatchedRow(self, cache, reg, e, next, id);
    }
  }

  lemma {:induction false} DeletedRows(self: UserId, cache: Cache, reg: Registry, v: View, e: Event, next: Cache)
    requires Tidy(cache, reg) && RowsShow(cache, reg, v.rows) && e.ConversationDeleted?
    requires next == NextCache(self, cache, e)
    ensures Tidy(next, reg)
    ensures forall id :: RowStep(self, Get(v.rows, id), e, id) == Seen(Lookup(next, reg, id))
  {
    forall id ensures RowStep(self, Get(v.rows, id), e, id) == Seen(Lookup(next, reg, id)) {
      assert Get(v.rows, id) == Seen(Lookup(cache, reg, id));
      if id in reg && reg[id].conversationId in cache { FoundAtHome(cache, reg, reg[id].conversationId, id); }
    }
  }

  // ---------- Rows that come from REST ----------

  predicate RowPlaced(reg: Registry, c: ConversationId, m: ClientMessage) {
    m.message.conversationId == c && Id(m) in reg && reg[Id(m)] == Place(c, Sequence(m))
  }

  predicate RowsPlaced(reg: Registry, c: ConversationId, rows: seq<ClientMessage>) {
    forall i :: 0 <= i < |rows| ==> RowPlaced(reg, c, rows[i])
  }

  /** The view with these rows put over its own, one after the other. */
  function Overlaid(v: View, rows: seq<ClientMessage>): View
    decreases |rows|
  {
    if rows == [] then v
    else
      var last, front := rows[|rows| - 1], Overlaid(v, rows[..|rows| - 1]);
      front.(rows := front.rows[Id(last) := Seen(Some(last)).value])
  }

  /** The view with these rows put where it has none. */
  function Filled(v: View, page: seq<ClientMessage>): View {
    var ids := set i | 0 <= i < |page| :: Id(page[i]);
    v.(rows := (map id | id in ids && Find(page, id).Some? :: Seen(Find(page, id)).value) + v.rows)
  }

  lemma {:induction false} OverlaidRow(cache: Cache, reg: Registry, v: View, m: ClientMessage, next: Cache)
    requires Consistent(reg) && Tidy(cache, reg) && RowsShow(cache, reg, v.rows)
    requires RowPlaced(reg, m.message.conversationId, m) && next == UpsertIn(cache, m)
    ensures Tidy(next, reg) && RowsShow(next, reg, v.rows[Id(m) := Seen(Some(m)).value])
  {
    UpsertTidy(cache, reg, m, next);
    forall id ensures Get(v.rows[Id(m) := Seen(Some(m)).value], id) == Seen(Lookup(next, reg, id)) {
      assert Get(v.rows, id) == Seen(Lookup(cache, reg, id));
    }
  }

  lemma {:induction false} PrependHome(list: seq<ClientMessage>, page: seq<ClientMessage>, c: ConversationId)
    requires forall i :: 0 <= i < |list| ==> list[i].message.conversationId == c
    requires forall i :: 0 <= i < |page| ==> page[i].message.conversationId == c
    ensures forall i :: 0 <= i < |Prepend(list, page)| ==> Prepend(list, page)[i].message.conversationId == c
  {
    SortMembers(list + Unknown(list, page));
    UnknownFrom(list, page);
    var r := Prepend(list, page);
    forall i | 0 <= i < |r| ensures r[i].message.conversationId == c { assert r[i] in list + Unknown(list, page); }
  }

  lemma {:induction false} UnknownFrom(list: seq<ClientMessage>, page: seq<ClientMessage>)
    ensures forall x :: x in Unknown(list, page) ==> x in page
  {
    if page != [] { UnknownFrom(list, page[1..]); }
  }

  lemma {:induction false} PrependTidy(cache: Cache, reg: Registry, c: ConversationId, page: seq<ClientMessage>,
      next: Cache)
    requires Consistent(reg) && Tidy(cache, reg) && RowsPlaced(reg, c, page) && DistinctIds(page)
    requires next == cache[c := Prepend(Cached(cache, c), page)]
    ensures Tidy(next, reg)
    ensures forall id :: Lookup(next, reg, id) == if Lookup(cache, reg, id).Some? then Lookup(cache, reg, id)
         else Find(page, id)
  {
    var list := Cached(cache, c);
    PrependList(list, reg, c, page);
    PrependHome(list, page, c);
    forall id
      ensures Lookup(next, reg, id) == if Lookup(cache, reg, id).Some? then Lookup(cache, reg, id) else Find(page, id)
    {
      FindIsMember(page, id);
      if id in reg && reg[id].conversationId == c { assert Cached(next, c) == Prepend(list, page); }
    }
  }

  lemma {:induction false} PrependList(list: seq<ClientMessage>, reg: Registry, c: ConversationId,
      page: seq<ClientMessage>)
    requires Consistent(reg) && Ordered(list, Slots(reg, c)) && RowsPlaced(reg, c, page) && DistinctIds(page)
    ensures Ordered(Prepend(list, page), Slots(reg, c))
    ensures forall id :: Find(Prepend(list, page), id) == if Find(list, id).Some? then Find(list, id)
         else Find(page, id)
  {
    SlotsInjective(reg, c);
    PageNumbered(reg, c, page);
    PrependMeaning(list, page, Slots(reg, c));
    forall id ensures Find(list, id).Some? <==> HasId(list, id) { FindIsMember(list, id); }
  }

  lemma PageNumbered(reg: Registry, c: ConversationId, page: seq<ClientMessage>)
    requires RowsPlaced(reg, c, page)
    ensures Transcript.Numbered(page, Slots(reg, c))
  {
  }

  lemma {:induction false} FilledRows(cache: Cache, reg: Registry, c: ConversationId, v: View, page: seq<ClientMessage>,
      next: Cache)
    requires Consistent(reg) && Tidy(cache, reg) && RowsShow(cache, reg, v.rows) && RowsPlaced(reg, c, page)
    requires DistinctIds(page)
    requires next == cache[c := Prepend(Cached(cache, c), page)]
    ensures Tidy(next, reg) && RowsShow(next, reg, Filled(v, page).rows)
  {
    PrependTidy(cache, reg, c, page, next);
    forall id ensures Get(Filled(v, page).rows, id) == Seen(Lookup(next, reg, id)) {
      assert Get(v.rows, id) == Seen(Lookup(cache, reg, id));
      FindIsMember(page, id);
    }
  }

  /**
   A recovery that was read before an edit and applied after the edit's event brings the old
   row back: whatever the cache holds, the upsert wins.
   */
  lemma {:induction false} StaleRecoveryLosesEdit(cache: Cache, reg: Registry, m: ClientMessage, content: string)
    requires Consistent(reg) && Tidy(cache, reg) && RowPlaced(reg, m.message.conversationId, m)
    ensures var edited := PatchIn(cache, m.message.conversationId, Id(m), Edited(content));
      Lookup(UpsertIn(edited, m), reg, Id(m)) == Some(m)
  {
    var edited := PatchIn(cache, m.message.conversationId, Id(m), Edited(content));
    PatchTidy(cache, reg, m.message.conversationId, Id(m), Edited(content), edited);
    UpsertTidy(edited, reg, m, UpsertIn(edited, m));
  }

  // ---------- Conversations ----------

  lemma {:induction false} FindMapped(list: seq<Entry>, c: ConversationId, f: Entry -> Entry, d: ConversationId)
    requires forall e: Entry :: e.id == c ==> f(e).id == c
    ensures FindEntry(MapEntry(list, c, f), d)
         == if d == c && FindEntry(list, d).Some? then Some(f(FindEntry(list, d).value)) else FindEntry(list, d)
  {
    if list != [] {
      assert MapEntry(list, c, f)[1..] == MapEntry(list[1..], c, f);
      FindMapped(list[1..], c, f, d);
    }
  }

  lemma {:induction false} FindRemoved(list: seq<Entry>, c: ConversationId, d: ConversationId)
    ensures FindEntry(RemoveEntry(list, c), d) == if d == c then None else FindEntry(list, d)
  {
    if list != [] {
      FindRemoved(list[1..], c, d);
      var rest := RemoveEntry(list[1..], c);
      assert [] + rest == rest && ([list[0]] + rest)[1..] == rest;
    }
  }

  lemma {:induction false} RosterShows(roster: seq<UserId>, members: set<UserId>)
    requires (set u | u in roster) == members
    ensures MembersShow(Unread(roster), AllUnread(members))
  {
    var rows := Unread(roster);
    forall u ensures u in members <==> exists i :: 0 <= i < |rows| && rows[i].userId == u {
      assert u in members <==> u in (set w | w in roster);
      if u in roster {
        var i :| 0 <= i < |roster| && roster[i] == u;
        assert rows[i].userId == u;
      }
    }
    forall i | 0 <= i < |rows| ensures rows[i].userId in members { assert roster[i] in (set w | w in roster); }
  }

  lemma {:induction false} RaiseShows(members: seq<WatermarkMember>, read: map<UserId, nat>, u: UserId, s: nat)
    requires MembersShow(members, read)
    ensures MembersShow(RaiseMembers(members, u, s), Raise(read, u, s))
  {
    var r := RaiseMembers(members, u, s);
    forall w ensures w in read <==> exists i :: 0 <= i < |r| && r[i].userId == w {
      if w in read {
        var i :| 0 <= i < |members| && members[i].userId == w;
        assert r[i].userId == w;
      }
      if i :| 0 <= i < |r| && r[i].userId == w { assert members[i].userId == w; }
    }
  }

  lemma {:induction false} EntryStep(self: UserId, list: seq<Entry>, v: View, envelope: Envelope, c: ConversationId)
    requires RosterListed(envelope) && EntryShows(FindEntry(list, c), Get(v.conversations, c))
    ensures EntryShows(FindEntry(NextList(self, list, envelope), c),
                       ConversationStep(self, Get(v.conversations, c), envelope.event, c))
  {
    match envelope.event
    case ConversationCreated(d, members) =>
      RosterShows(envelope.roster, members);
      FindMapped(list, d, _ => Entry(d, 0, Unread(envelope.roster)), c);
    case ConversationDeleted(d, members) => FindRemoved(list, d, c);
    case MessageCreated(m) => FindMapped(list, m.conversationId, x => Active(x, m.sequence), c);
    case ReceiptRead(d, u, s, recipient) =>
      FindMapped(list, d, x => ReadBy(x, u, s), c);
      if FindEntry(list, c).Some? {
        RaiseShows(FindEntry(list, c).value.members, v.conversations[c].read, u, s);
      }
    case _ =>
  }

  lemma {:induction false} ListStep(self: UserId, list: seq<Entry>, v: View, envelope: Envelope)
    requires RosterListed(envelope) && ListShows(list, v.conversations)
    ensures ListShows(NextList(self, list, envelope), Apply(self, v, envelope.event).conversations)
  {
    forall c
      ensures EntryShows(FindEntry(NextList(self, list, envelope), c),
           Get(Apply(self, v, envelope.event).conversations, c))
    {
      EntryStep(self, list, v, envelope, c);
      ApplyAt(self, v, envelope.event, 0, c);
    }
  }

  // ---------- The client ----------

  function EventsOf(envelopes: seq<Envelope>): seq<Event> {
    seq(|envelopes|, i requires 0 <= i < |envelopes| => envelopes[i].event)
  }

  predicate AllPlaced(reg: Registry, envelopes: seq<Envelope>) {
    forall i :: 0 <= i < |envelopes| ==> EventPlaced(reg, envelopes[i].event) && RosterListed(envelopes[i])
  }

  /** k is the highest sequence the client holds of the conversation: in its list entry or in a cached row. */
  ghost predicate Highest(list: seq<Entry>, rows: seq<ClientMessage>, c: ConversationId, k: nat) {
    && (forall m :: m in rows ==> Sequence(m) <= k)
    && (FindEntry(list, c).Some? ==> FindEntry(list, c).value.lastSequence <= k)
    && (k == 0 || (exists m :: m in rows && Sequence(m) == k)
        || (FindEntry(list, c).Some? && FindEntry(list, c).value.lastSequence == k))
  }

  /** A fetch of what follows k starts exactly when the message is past k + 1 and none is under way. */
  predicate Detects(m: Message, k: nat, guard: set<ConversationId>, guarded: set<ConversationId>, before: seq<Fetch>,
      after: seq<Fetch>) {
    if k + 1 < m.sequence && m.conversationId !in guard
    then after == before + [Fetch(m.conversationId, k)] && guarded == guard + {m.conversationId}
    else after == before && guarded == guard
  }

  /** The last row of an ordered list is its highest. */
  lemma {:induction false} LastIsHighest(list: seq<Entry>, rows: seq<ClientMessage>, c: ConversationId, k: nat)
    requires StrictlySorted(rows)
    requires k == Max(if FindEntry(list, c).Some? then FindEntry(list, c).value.lastSequence else 0,
                      H.LastCached(rows))
    ensures Highest(list, rows, c, k)
  {
    forall m | m in rows ensures Sequence(m) <= k {
      var i :| 0 <= i < |rows| && rows[i] == m;
    }
    if rows != [] { assert rows[|rows| - 1] in rows; }
  }

  lemma {:induction false} HighestSpan(list: seq<Entry>, rows: seq<ClientMessage>, history: seq<ClientMessage>,
      c: ConversationId, lo: nat, w: nat)
    requires 1 <= lo <= w && H.Spans(rows, history, lo, w)
    requires FindEntry(list, c).Some? ==> FindEntry(list, c).value.lastSequence <= w
    ensures forall k: nat :: Highest(list, rows, c, k) ==> k == w
    ensures H.LastCached(rows) == w
  {
    assert rows[w - lo] in rows && Sequence(rows[w - lo]) == w;
  }

  lemma {:induction false} RecoveredPlaced(history: seq<ClientMessage>, reg: Registry, c: ConversationId, w: nat)
    requires H.DenseHistory(history) && RowsPlaced(reg, c, history) && 0 < w <= |history|
    ensures RowsPlaced(reg, c, H.RecoveryRows(history, w))
  {
    H.RecoveryRowsSlice(history, w);
  }

  lemma {:induction false} JumpHeals(rows: seq<ClientMessage>, known: nat, history: seq<ClientMessage>, reg: Registry,
      m: Message, lo: nat, w: nat, out: seq<ClientMessage>)
    requires var c := m.conversationId; Consistent(reg) && Ordered(rows, Slots(reg, c)) && RowsPlaced(reg, c, history)
    requires H.DenseHistory(history) && 1 <= lo <= w && H.Spans(rows, history, lo, w) && known <= w
    requires w + 1 < m.sequence <= |history| && Id(history[m.sequence - 1]) == m.id
    requires out == H.UpsertAll(Upsert(rows, ClientMessage(m, [])), H.RecoveryRows(history, w))
    ensures H.Contiguous(out) <==> m.sequence - 1 - w <= H.RECOVERY_LIMIT
    ensures m.sequence - 1 - w <= H.RECOVERY_LIMIT ==>
      H.Spans(out, history, lo, Max(m.sequence, Min(w + H.RECOVERY_LIMIT, |history|)))
  {
    var feed, row := H.Feed(rows, known), ClientMessage(m, []);
    assert rows[w - lo] == rows[|rows| - 1];
    H.GapHealsExactly(feed, history, Slots(reg, m.conversationId), row, lo, w, m.sequence,
                      H.ReceiveCreated(feed, row, true, history));
  }

  class Client {
    const self: UserId
    var conversations: seq<Entry>
    var cache: Cache
    var buffering: bool
    var bufferedEvents: seq<Envelope>
    var gapRecovering: set<ConversationId>
    var fetches: seq<Fetch>

    ghost predicate Represents(v: View, reg: Registry)
      reads this
    {
      Consistent(reg) && Tidy(cache, reg) && RowsShow(cache, reg, v.rows) && ListShows(conversations, v.conversations)
    }

    constructor (self: UserId, ghost reg: Registry)
      requires Consistent(reg)
      ensures this.self == self && Represents(EMPTY, reg)
      ensures buffering && bufferedEvents == [] && gapRecovering == {} && fetches == []
    {
      this.self := self;
      conversations, cache, buffering, bufferedEvents, gapRecovering, fetches := [], map[], true, [], {}, [];
    }

    method UpsertMessage(m: ClientMessage)
      modifies this`cache
      ensures cache == UpsertIn(old(cache), m)
    {
      var c := m.message.conversationId;
      var list := Cached(cache, c);
      if HasId(list, Id(m)) {
        cache := cache[c := ReplaceById(list, m)];
      } else {
        cache := cache[c := SortMessages(list + [m])];
      }
    }

    /** The watermark gap detection reads, taken before the event is applied. */
    function LastKnown(c: ConversationId): nat
      reads this
    {
      var entry := FindEntry(conversations, c);
      Max(if entry.Some? then entry.value.lastSequence else 0, H.LastCached(Cached(cache, c)))
    }

    /** The synchronous head of recoverSequenceGap. */
    method StartRecovery(c: ConversationId, after: nat)
      modifies this`gapRecovering, this`fetches
      ensures gapRecovering == old(gapRecovering) + {c}
      ensures fetches == if c in old(gapRecovering) then old(fetches) else old(fetches) + [Fetch(c, after)]
    {
      if c in gapRecovering {
        return;
      }
      gapRecovering := gapRecovering + {c};
      fetches := fetches + [Fetch(c, after)];
    }

    /**
     The rest of it, once the fetch settles: rows upserted one by one, over what is cached; then
     the guard released.
     */
    method FinishRecovery(c: ConversationId, fetched: Option<seq<ClientMessage>>, ghost v: View, ghost reg: Registry)
      requires Represents(v, reg) && (fetched.Some? ==> RowsPlaced(reg, c, fetched.value))
      modifies this`cache, this`gapRecovering
      ensures gapRecovering == old(gapRecovering) - {c}
      ensures forall d :: d != c ==> Cached(cache, d) == Cached(old(cache), d)
      ensures Cached(cache, c) == H.UpsertAll(Cached(old(cache), c), if fetched.Some? then fetched.value else [])
      ensures Represents(Overlaid(v, if fetched.Some? then fetched.value else []), reg)
    {
      if fetched.Some? {
        var rows := fetched.value;
        for i := 0 to |rows|
          invariant gapRecovering == old(gapRecovering)
          invariant forall d :: d != c ==> Cached(cache, d) == Cached(old(cache), d)
          invariant Cached(cache, c) == H.UpsertAll(Cached(old(cache), c), rows[..i])
          invariant Represents(Overlaid(v, rows[..i]), reg)
        {
          assert rows[..i + 1][..i] == rows[..i];
          OverlaidRow(cache, reg, Overlaid(v, rows[..i]), rows[i], UpsertIn(cache, rows[i]));
          UpsertMessage(rows[i]);
        }
        assert rows[..|rows|] == rows;
      }
      gapRecovering := gapRecovering - {c};
    }

    /** prependMessages with an older page: rows that are cached stay, others come in. */
    method PrependMessages(c: ConversationId, page: seq<ClientMessage>, ghost v: View, ghost reg: Registry)
      requires Represents(v, reg) && RowsPlaced(reg, c, page) && DistinctIds(page)
      modifies this`cache
      ensures cache == old(cache)[c := Prepend(Cached(old(cache), c), page)]
      ensures Represents(Filled(v, page), reg)
    {
      FilledRows(cache, reg, c, v, page, cache[c := Prepend(Cached(cache, c), page)]);
      cache := cache[c := Prepend(Cached(cache, c), page)];
    }

    /** message.created: the row, the list entry, and a fetch when the sequence jumped. */
    method HandleCreated(m: Message)
      requires StrictlySorted(Cached(cache, m.conversationId))
      modifies this`cache, this`conversations, this`gapRecovering, this`fetches
      ensures cache == UpsertIn(old(cache), ClientMessage(m, []))
      ensures conversations == WithActivity(old(conversations), m.conversationId, m.sequence)
      ensures exists k: nat ::
        && Highest(old(conversations), Cached(old(cache), m.conversationId), m.conversationId, k)
        && Detects(m, k, old(gapRecovering), gapRecovering, old(fetches), fetches)
    {
      var c := m.conversationId;
      var known := LastKnown(c);
      LastIsHighest(conversations, Cached(cache, c), c, known);
      UpsertMessage(ClientMessage(m, []));
      conversations := WithActivity(conversations, c, m.sequence);
      if m.sequence > known + 1 {
        StartRecovery(c, known);
      }
      assert Detects(m, known, old(gapRecovering), gapRecovering, old(fetches), fetches);
    }

    /** handleEvent: one canonical event is one step of the replayed view. */
    method HandleEvent(envelope: Envelope, ghost v: View, ghost reg: Registry)
      requires Represents(v, reg) && EventPlaced(reg, envelope.event) && RosterListed(envelope)
      modifies this`cache, this`conversations, this`gapRecovering, this`fetches
      ensures Represents(Apply(self, v, envelope.event), reg)
      ensures envelope.event.MessageCreated? ==>
        var m := envelope.event.message;
        && cache == UpsertIn(old(cache), ClientMessage(m, []))
        && exists k: nat ::
             && Highest(old(conversations), Cached(old(cache), m.conversationId), m.conversationId, k)
             && Detects(m, k, old(gapRecovering), gapRecovering, old(fetches), fetches)
      ensures !envelope.event.MessageCreated? ==>
        fetches == old(fetches) && gapRecovering == old(gapRecovering)
    {
      var e := envelope.event;
      ghost var list, rows := conversations, cache;
      match e {
        case ConversationCreated(c, members) =>
          if self in members {
            conversations := UpsertEntry(conversations, Entry(c, 0, Unread(envelope.roster)));
          }
        case ConversationDeleted(c, members) =>
          if Leaves(self, members) {
            conversations := RemoveEntry(conversations, c);
            cache := cache - {c};
          }
        case MessageCreated(m) =>
          HandleCreated(m);
        case ReceiptRead(c, u, s, recipient) =>
          if recipient == self {
            conversations := WithReceipt(conversations, c, u, s);
          }
        case ReceiptDelivered(_, _, _, _) =>
        case _ =>
          cache := PatchIn(cache, e.conversationId, e.messageId, PatchOf(e));
      }
      RowsStep(self, rows, reg, v, e, cache);
      ListStep(self, list, v, envelope);
    }

    /** The server answers a fetch from its history. */
    method AnswerFetch(fetch: Fetch, history: seq<ClientMessage>, ghost v: View, ghost reg: Registry)
      requires Represents(v, reg) && H.DenseHistory(history) && RowsPlaced(reg, fetch.conversationId, history)
      requires 0 < fetch.after <= |history|
      modifies this`cache, this`gapRecovering
      ensures gapRecovering == old(gapRecovering) - {fetch.conversationId}
      ensures Cached(cache, fetch.conversationId)
           == H.UpsertAll(Cached(old(cache), fetch.conversationId), H.RecoveryRows(history, fetch.after))
    {
      RecoveredPlaced(history, reg, fetch.conversationId, fetch.after);
      FinishRecovery(fetch.conversationId, Some(H.RecoveryRows(history, fetch.after)), v, reg);
    }

    /**
     A jump and its recovery. The client holds lo..w of a conversation and nothing beyond; the
     event brings s > w + 1, and the fetch it starts is answered from the server's history. The
     cached list is one stretch afterwards if and only if at most 100 messages were missing.
     */
    method RecoverJump(envelope: Envelope, history: seq<ClientMessage>, ghost v: View, ghost reg: Registry,
        ghost lo: nat, ghost w: nat)
      requires Represents(v, reg) && EventPlaced(reg, envelope.event) && envelope.event.MessageCreated?
      requires var m := envelope.event.message; var c := m.conversationId;
        && c !in gapRecovering && H.DenseHistory(history) && RowsPlaced(reg, c, history)
        && 1 <= lo <= w && H.Spans(Cached(cache, c), history, lo, w)
        && (FindEntry(conversations, c).Some? ==> FindEntry(conversations, c).value.lastSequence <= w)
        && w + 1 < m.sequence <= |history| && Id(history[m.sequence - 1]) == m.id
      modifies this
      ensures var m := envelope.event.message;
        && (H.Contiguous(Cached(cache, m.conversationId)) <==> m.sequence - 1 - w <= 100)
        && (m.sequence - 1 - w <= 100 ==>
              H.Spans(Cached(cache, m.conversationId), history, lo, Max(m.sequence, Min(w + 100, |history|))))
      ensures gapRecovering == old(gapRecovering) && |fetches| == |old(fetches)| + 1
    {
      ghost var m := envelope.event.message;
      ghost var rows, entry := Cached(cache, m.conversationId), FindEntry(conversations, m.conversationId);
      ghost var known := if entry.Some? then entry.value.lastSequence else 0;
      HighestSpan(conversations, rows, history, m.conversationId, lo, w);
      HandleEvent(envelope, v, reg);
      assert fetches == old(fetches) + [Fetch(m.conversationId, w)];
      assert Cached(cache, m.conversationId) == Upsert(rows, ClientMessage(m, []));
      assert gapRecovering - {m.conversationId} == old(gapRecovering);
      AnswerFetch(fetches[|fetches| - 1], history, Apply(self, v, envelope.event), reg);
      JumpHeals(rows, known, history, reg, m, lo, w, Cached(cache, m.conversationId));
    }

    /** The realtime listener: held back while a snapshot is on its way. */
    method OnEvent(envelope: Envelope, ghost v: View, ghost reg: Registry)
      requires Represents(v, reg) && EventPlaced(reg, envelope.event) && RosterListed(envelope)
      modifies this
      ensures buffering == old(buffering)
      ensures if buffering then bufferedEvents == old(bufferedEvents) + [envelope] && Represents(v, reg)
              else bufferedEvents == old(bufferedEvents) && Represents(Apply(self, v, envelope.event), reg)
    {
      if buffering {
        bufferedEvents := bufferedEvents + [envelope];
      } else {
        HandleEvent(envelope, v, reg);
      }
    }

    method OnDisconnect()
      modifies this`buffering
      ensures buffering
    {
      buffering := true;
    }

    /** Everything buffered is routed in order of arrival, and nothing stays behind. */
    method ReplayBufferedEvents(ghost v: View, ghost reg: Registry)
      requires Represents(v, reg) && AllPlaced(reg, bufferedEvents)
      modifies this
      ensures !buffering && bufferedEvents == []
      ensures Represents(Fold(self, v, EventsOf(old(bufferedEvents))), reg)
    {
      buffering := false;
      var held := bufferedEvents;
      bufferedEvents := [];
      for i := 0 to |held|
        invariant !buffering && bufferedEvents == []
        invariant Represents(Fold(self, v, EventsOf(held[..i])), reg)
      {
        assert EventsOf(held[..i + 1]) == EventsOf(held[..i]) + [held[i].event];
        FoldLast(self, v, EventsOf(held[..i]), held[i].event);
        HandleEvent(held[i], Fold(self, v, EventsOf(held[..i])), reg);
      }
      assert held[..|held|] == held;
    }

    /** Bootstrap after SUBACK: the list snapshot replaces the list, then the buffer is replayed. */
    method FinishBootstrap(snapshot: seq<Entry>, ghost v: View, ghost entries: map<ConversationId, ConversationView>,
                           ghost reg: Registry)
      requires Represents(v, reg) && ListShows(snapshot, entries) && AllPlaced(reg, bufferedEvents)
      modifies this
      ensures !buffering && bufferedEvents == []
      ensures Represents(Fold(self, View(v.rows, entries), EventsOf(old(bufferedEvents))), reg)
    {
      conversations := snapshot;
      ReplayBufferedEvents(View(v.rows, entries), reg);
    }
  }
}
