/**
 The mobile send lifecycle: optimistic entries, publishes that settle later, reconciliation
 timers. Methods are cut at their awaits, so every interleaving of sends, flushes, retries,
 settled publishes, timers and canonical events is a sequence of the steps below.
 */
module Lifecycle {
  import opened Domain

  datatype Status = Queued | Pending | Failed

  datatype Payload = Payload(
    conversationId: ConversationId,
    kind: MessageType,
    content: string,
    replyToId: Option<MessageId>)

  /** An optimistic entry, also what sendFn is called with. */
  datatype Entry = Entry(clientMessageId: ClientMessageId, payload: Payload, status: Status)

  /** A publish awaiting its outcome; `rest` is what an interrupted flushQueued still has to publish. */
  datatype Flight = Flight(clientMessageId: ClientMessageId, rest: seq<Entry>)

  /** `published` records every sendFn call, `sent` the payload each id was first sent with. */
  datatype State = State(
    pending: map<ClientMessageId, Entry>,
    messages: map<MessageId, Message>,
    armed: set<ClientMessageId>,
    flights: seq<Flight>,
    published: seq<Entry>,
    sent: map<ClientMessageId, Payload>)

  const EMPTY := State(map[], map[], {}, [], [], map[])

  datatype Step =
    | Send(clientMessageId: ClientMessageId, payload: Payload, connected: bool)
    | FlushQueued(queue: seq<Entry>)
    | Retry(clientMessageId: ClientMessageId)
    | Resolve(flight: nat)
    | Reject(flight: nat)
    | Timeout(clientMessageId: ClientMessageId)
    | MarkFailed(clientMessageId: ClientMessageId)
    | Reconcile(clientMessageId: ClientMessageId, message: Message)
    | ApplyHistory(rows: seq<Message>)

  // ---------- Effects between two awaits ----------

  function Fail(s: State, c: ClientMessageId): State {
    s.(pending := if c in s.pending then s.pending[c := s.pending[c].(status := Failed)] else s.pending,
       armed := s.armed - {c})
  }

  function Publish(s: State, shown: Entry, published: Entry, rest: seq<Entry>): State {
    s.(pending := s.pending[shown.clientMessageId := shown],
       flights := s.flights + [Flight(shown.clientMessageId, rest)],
       published := s.published + [published])
  }

  /** The flush loop up to its next await. */
  function Flush(s: State, queue: seq<Entry>): State {
    if queue == [] then s
    else Publish(s, queue[0].(status := Pending), queue[0].(status := Pending), queue[1..])
  }

  function Landed(s: State, i: nat): State
    requires i < |s.flights|
  {
    s.(flights := s.flights[..i] + s.flights[i + 1..])
  }

  /** Rows of a history response never replace rows already held. */
  function Merge(held: map<MessageId, Message>, rows: seq<Message>): map<MessageId, Message>
    decreases |rows|
  {
    if rows == [] then held
    else Merge(if rows[0].id in held then held else held[rows[0].id := rows[0]], rows[1..])
  }

  /** The queue flushQueued collects: the queued entries, in some order. */
  predicate IsQueue(s: State, queue: seq<Entry>) {
    && (forall e :: e in queue ==>
          e.clientMessageId in s.pending && s.pending[e.clientMessageId] == e && e.status == Queued)
    && (forall c :: c in s.pending && s.pending[c].status == Queued ==> s.pending[c] in queue)
  }

  /** Callers draw a fresh id per message; sending an id again means the same message. */
  predicate IdDenotes(s: State, c: ClientMessageId, p: Payload) {
    c in s.sent ==> s.sent[c] == p
  }

  function SendStep(s: State, c: ClientMessageId, p: Payload, connected: bool): State {
    var known := s.(sent := s.sent[c := p]);
    if connected then Publish(known, Entry(c, p, Pending), Entry(c, p, Pending), [])
    else known.(pending := s.pending[c := Entry(c, p, Queued)], armed := s.armed + {c})
  }

  function RetryStep(s: State, c: ClientMessageId): State {
    if c !in s.pending || s.pending[c].status == Pending then s
    else Publish(s, s.pending[c].(status := Pending), s.pending[c], [])
  }

  /** The continuation after an acknowledged publish: arm the timer, go on flushing. */
  function ResolveStep(s: State, i: nat): State
    requires i < |s.flights|
  {
    var t := Landed(s, i);
    Flush(t.(armed := t.armed + {s.flights[i].clientMessageId}), s.flights[i].rest)
  }

  function RejectStep(s: State, i: nat): State
    requires i < |s.flights|
  {
    Flush(Fail(Landed(s, i), s.flights[i].clientMessageId), s.flights[i].rest)
  }

  /** A step that is not enabled leaves the state as it is. */
  function Next(s: State, step: Step): State {
    match step
    case Send(c, p, connected) => if IdDenotes(s, c, p) then SendStep(s, c, p, connected) else s
    case FlushQueued(queue) => if IsQueue(s, queue) then Flush(s, queue) else s
    case Retry(c) => RetryStep(s, c)
    case Resolve(i) => if i < |s.flights| then ResolveStep(s, i) else s
    case Reject(i) => if i < |s.flights| then RejectStep(s, i) else s
    case Timeout(c) => if c in s.armed then Fail(s, c) else s
    case MarkFailed(c) => Fail(s, c)
    case Reconcile(c, m) => s.(pending := s.pending - {c}, armed := s.armed - {c}, messages := s.messages[m.id := m])
    case ApplyHistory(rows) => s.(messages := Merge(s.messages, rows))
  }

  function Run(s: State, steps: seq<Step>): State
    decreases |steps|
  {
    if steps == [] then s else Run(Next(s, steps[0]), steps[1..])
  }

  /** The store itself. Each method runs up to the await it meets, or from one. */
  class MessageLifecycleStore {
    var pending: map<ClientMessageId, Entry>
    var messages: map<MessageId, Message>
    var timeouts: set<ClientMessageId>
    ghost var flights: seq<Flight>
    ghost var published: seq<Entry>
    ghost var sent: map<ClientMessageId, Payload>

    ghost function Current(): State
      reads this
    {
      State(pending, messages, timeouts, flights, published, sent)
    }

    constructor ()
      ensures Current() == EMPTY
    {
      pending, messages, timeouts := map[], map[], {};
      flights, published, sent := [], [], map[];
    }

    method ClearTimeout(c: ClientMessageId)
      modifies this`timeouts
      ensures timeouts == old(timeouts) - {c}
    {
      if c in timeouts {
        timeouts := timeouts - {c};
      }
    }

    method ArmTimeout(c: ClientMessageId)
      modifies this`timeouts
      ensures timeouts == old(timeouts) + {c}
    {
      ClearTimeout(c);
      timeouts := timeouts + {c};
    }

    /** sendFn called: its promise is in flight. */
    ghost method BeginPublish(e: Entry, rest: seq<Entry>)
      modifies this`flights, this`published
      ensures flights == old(flights) + [Flight(e.clientMessageId, rest)] && published == old(published) + [e]
    {
      flights := flights + [Flight(e.clientMessageId, rest)];
      published := published + [e];
    }

    method Send(c: ClientMessageId, p: Payload, connected: bool)
      requires IdDenotes(Current(), c, p)
      modifies this
      ensures Current() == Next(old(Current()), Step.Send(c, p, connected))
      ensures pending == old(pending)[c := Entry(c, p, if connected then Pending else Queued)]
      ensures timeouts == if connected then old(timeouts) else old(timeouts) + {c}
      ensures published == old(published) + if connected then [Entry(c, p, Pending)] else []
      ensures flights == old(flights) + if connected then [Flight(c, [])] else []
      ensures messages == old(messages)
    {
      var entry := Entry(c, p, if connected then Pending else Queued);
      pending := pending[c := entry];
      sent := sent[c := p];
      if !connected {
        ArmTimeout(c);
        return;
      }
      BeginPublish(entry, []);
    }

    method FlushFrom(queue: seq<Entry>)
      modifies this
      ensures Current() == Flush(old(Current()), queue)
    {
      if queue != [] {
        var entry := queue[0].(status := Pending);
        pending := pending[entry.clientMessageId := entry];
        BeginPublish(entry, queue[1..]);
      }
    }

    method FlushQueued(queue: seq<Entry>)
      requires IsQueue(Current(), queue)
      modifies this
      ensures Current() == Next(old(Current()), Step.FlushQueued(queue))
      ensures forall c :: c in old(pending) && old(pending)[c].status == Queued ==> old(pending)[c] in queue
      ensures queue == [] ==> Current() == old(Current())
      ensures queue != [] ==>
        var entry := Entry(queue[0].clientMessageId, queue[0].payload, Pending);
        Current() == old(Current()).(
          pending := old(pending)[entry.clientMessageId := entry],
          flights := old(flights) + [Flight(entry.clientMessageId, queue[1..])],
          published := old(published) + [entry])
    {
      FlushFrom(queue);
    }

    method Retry(c: ClientMessageId)
      modifies this
      ensures Current() == Next(old(Current()), Step.Retry(c))
      ensures c !in old(pending) || old(pending)[c].status == Pending ==> Current() == old(Current())
      ensures c in old(pending) && old(pending)[c].status != Pending ==>
        var entry := old(pending)[c];
        Current() == old(Current()).(
          pending := old(pending)[entry.clientMessageId := entry.(status := Pending)],
          flights := old(flights) + [Flight(entry.clientMessageId, [])],
          published := old(published) + [entry])
    {
      if c !in pending || pending[c].status == Pending {
        return;
      }
      var entry := pending[c];
      pending := pending[entry.clientMessageId := entry.(status := Pending)];
      BeginPublish(entry, []);
    }

    method Fail(c: ClientMessageId)
      modifies this
      ensures Current() == Next(old(Current()), MarkFailed(c))
      ensures timeouts == old(timeouts) - {c} && messages == old(messages)
      ensures flights == old(flights) && published == old(published) && sent == old(sent)
      ensures c in old(pending) ==> pending == old(pending)[c := old(pending)[c].(status := Failed)]
      ensures c !in old(pending) ==> pending == old(pending)
    {
      if c in pending {
        pending := pending[c := pending[c].(status := Failed)];
      }
      ClearTimeout(c);
    }

    /** An awaited sendFn settles: the code after the await, up to the next one. */
    method Settle(i: nat, c: ClientMessageId, rest: seq<Entry>, resolved: bool)
      requires i < |flights| && flights[i] == Flight(c, rest)
      modifies this
      ensures Current() == Next(old(Current()), if resolved then Resolve(i) else Reject(i))
      ensures timeouts == if resolved then old(timeouts) + {c} else old(timeouts) - {c}
      ensures published == old(published) + if rest == [] then [] else [rest[0].(status := Pending)]
      ensures flights == old(flights)[..i] + old(flights)[i + 1..]
        + if rest == [] then [] else [Flight(rest[0].clientMessageId, rest[1..])]
      ensures var left := if !resolved && c in old(pending) then old(pending)[c := old(pending)[c].(status := Failed)]
                          else old(pending);
        pending == if rest == [] then left else left[rest[0].clientMessageId := rest[0].(status := Pending)]
      ensures messages == old(messages)
    {
      flights := flights[..i] + flights[i + 1..];
      if resolved {
        ArmTimeout(c);
      } else {
        Fail(c);
      }
      FlushFrom(rest);
    }

    method Reconcile(c: ClientMessageId, m: Message)
      modifies this
      ensures Current() == Next(old(Current()), Step.Reconcile(c, m))
      ensures c !in pending && c !in timeouts && m.id in messages && messages[m.id] == m
      ensures forall d :: d != c ==> (d in pending <==> d in old(pending)) && (d in timeouts <==> d in old(timeouts))
      ensures forall d :: d in pending ==> pending[d] == old(pending)[d]
      ensures forall id :: id != m.id ==> (id in messages <==> id in old(messages))
      ensures forall id :: id in messages && id != m.id ==> messages[id] == old(messages)[id]
      ensures flights == old(flights) && published == old(published) && sent == old(sent)
    {
      pending := pending - {c};
      ClearTimeout(c);
      messages := messages[m.id := m];
    }

    method ApplyHistory(rows: seq<Message>)
      modifies this
      ensures Current() == Next(old(Current()), Step.ApplyHistory(rows))
      ensures Current() == old(Current()).(messages := messages)
    {
      ghost var before := messages;
      for i := 0 to |rows|
        invariant Merge(messages, rows[i..]) == Merge(before, rows)
        invariant Current() == old(Current()).(messages := messages)
      {
        if rows[i].id !in messages {
          messages := messages[rows[i].id := rows[i]];
        }
      }
    }
  }

  // ---------- What every interleaving keeps ----------

  predicate InFlight(s: State, c: ClientMessageId) {
    exists i :: 0 <= i < |s.flights| && s.flights[i].clientMessageId == c
  }

  predicate Open(s: State, c: ClientMessageId) {
    c in s.pending && s.pending[c].status != Failed
  }

  /** Whatever still waits is watched by a timer or by a publish that has yet to settle. */
  ghost predicate Attended(s: State) {
    forall c :: Open(s, c) ==> c in s.armed || InFlight(s, c)
  }

  predicate Faithful(s: State, e: Entry) {
    e.clientMessageId in s.sent && s.sent[e.clientMessageId] == e.payload
  }

  /** Entries, published commands and what a flush still holds agree with the payload first sent. */
  ghost predicate OnePayload(s: State) {
    && (forall c :: c in s.pending ==> s.pending[c].clientMessageId == c && Faithful(s, s.pending[c]))
    && (forall i :: 0 <= i < |s.published| ==> Faithful(s, s.published[i]))
    && (forall i, j :: 0 <= i < |s.flights| && 0 <= j < |s.flights[i].rest| ==> Faithful(s, s.flights[i].rest[j]))
  }

  ghost predicate Inv(s: State) {
    Attended(s) && OnePayload(s)
  }

  lemma {:induction false} PublishKeeps(s: State, shown: Entry, published: Entry, rest: seq<Entry>)
    requires OnePayload(s) && Faithful(s, shown) && Faithful(s, published)
    requires forall j :: 0 <= j < |rest| ==> Faithful(s, rest[j])
    requires forall c :: Open(s, c) && c != shown.clientMessageId ==> c in s.armed || InFlight(s, c)
    ensures Inv(Publish(s, shown, published, rest))
  {
    var t := Publish(s, shown, published, rest);
    forall c | Open(t, c) ensures c in t.armed || InFlight(t, c) {
      if c == shown.clientMessageId {
        assert t.flights[|s.flights|].clientMessageId == c;
      } else if InFlight(s, c) {
        var i :| 0 <= i < |s.flights| && s.flights[i].clientMessageId == c;
        assert t.flights[i].clientMessageId == c;
      }
    }
  }

  lemma {:induction false} FlushKeeps(s: State, queue: seq<Entry>)
    requires Inv(s) && forall j :: 0 <= j < |queue| ==> Faithful(s, queue[j])
    ensures Inv(Flush(s, queue))
  {
    if queue != [] {
      PublishKeeps(s, queue[0].(status := Pending), queue[0].(status := Pending), queue[1..]);
    }
  }

  /** Only the landed publish stops watching its entry. */
  lemma {:induction false} LandedWatches(s: State, i: nat)
    requires Inv(s) && i < |s.flights|
    ensures var t := Landed(s, i);
      OnePayload(t) && forall c :: Open(t, c) && c != s.flights[i].clientMessageId ==> c in t.armed || InFlight(t, c)
  {
    var t := Landed(s, i);
    forall c | Open(t, c) && c != s.flights[i].clientMessageId ensures c in t.armed || InFlight(t, c) {
      assert Open(s, c);
      if InFlight(s, c) {
        var k :| 0 <= k < |s.flights| && s.flights[k].clientMessageId == c;
        assert t.flights[if k < i then k else k - 1].clientMessageId == c;
      }
    }
    forall k, j | 0 <= k < |t.flights| && 0 <= j < |t.flights[k].rest| ensures Faithful(t, t.flights[k].rest[j]) {
      assert t.flights[k] == s.flights[if k < i then k else k + 1];
    }
  }

  lemma {:induction false} SettledKeeps(s: State, i: nat)
    requires Inv(s) && i < |s.flights|
    ensures Inv(ResolveStep(s, i)) && Inv(RejectStep(s, i))
  {
    LandedWatches(s, i);
    var t, c := Landed(s, i), s.flights[i].clientMessageId;
    var armed := t.(armed := t.armed + {c});
    forall d | Open(armed, d) ensures d in armed.armed || InFlight(armed, d) {
      assert Open(t, d) && (InFlight(t, d) ==> InFlight(armed, d));
    }
    FlushKeeps(armed, s.flights[i].rest);
    FailWatches(t, c);
    FlushKeeps(Fail(t, c), s.flights[i].rest);
  }

  lemma FailWatches(s: State, c: ClientMessageId)
    requires OnePayload(s) && forall d :: Open(s, d) && d != c ==> d in s.armed || InFlight(s, d)
    ensures Inv(Fail(s, c))
  {
  }

  lemma {:induction false} SendKeeps(s: State, c: ClientMessageId, p: Payload, connected: bool)
    requires Inv(s) && IdDenotes(s, c, p)
    ensures Inv(SendStep(s, c, p, connected))
  {
    var known := s.(sent := s.sent[c := p]);
    assert forall d :: (Open(known, d) <==> Open(s, d)) && (InFlight(known, d) <==> InFlight(s, d));
    if connected {
      PublishKeeps(known, Entry(c, p, Pending), Entry(c, p, Pending), []);
    } else {
      var t := SendStep(s, c, p, connected);
      forall d | Open(t, d) ensures d in t.armed || InFlight(t, d) {
        if d != c { assert Open(s, d) && (InFlight(s, d) ==> InFlight(t, d)); }
      }
    }
  }

  lemma ReconcileKeeps(s: State, c: ClientMessageId, m: Message)
    requires Inv(s)
    ensures Inv(Next(s, Reconcile(c, m)))
  {
  }

  lemma HistoryKeeps(s: State, rows: seq<Message>)
    requires Inv(s)
    ensures Inv(Next(s, ApplyHistory(rows)))
  {
  }

  lemma {:induction false} NextKeeps(s: State, step: Step)
    requires Inv(s)
    ensures Inv(Next(s, step))
  {
    match step
    case Send(c, p, connected) => if IdDenotes(s, c, p) { SendKeeps(s, c, p, connected); }
    case FlushQueued(queue) => if IsQueue(s, queue) { FlushKeeps(s, queue); }
    case Retry(c) =>
      if c in s.pending && s.pending[c].status != Pending {
        PublishKeeps(s, s.pending[c].(status := Pending), s.pending[c], []);
      }
    case Resolve(i) => if i < |s.flights| { SettledKeeps(s, i); }
    case Reject(i) => if i < |s.flights| { SettledKeeps(s, i); }
    case Timeout(c) => FailWatches(s, c);
    case MarkFailed(c) => FailWatches(s, c);
    case Reconcile(c, m) => ReconcileKeeps(s, c, m);
    case ApplyHistory(rows) => HistoryKeeps(s, rows);
  }

  lemma {:induction false} RunKeeps(s: State, steps: seq<Step>)
    requires Inv(s)
    ensures Inv(Run(s, steps))
    decreases |steps|
  {
    if steps != [] {
      NextKeeps(s, steps[0]);
      RunKeeps(Next(s, steps[0]), steps[1..]);
    }
  }

  // ---------- Main results ----------

  /**
   No stuck send, in every interleaving: an entry that is queued or pending has an armed
   timer or a publish in flight; every publish of one clientMessageId carries the same
   payload, so the authority's deduplication makes retries harmless.
   */
  lemma {:induction false} NoStuckSend(steps: seq<Step>)
    ensures var s := Run(EMPTY, steps);
      && (forall c :: c in s.pending && s.pending[c].status != Failed ==> c in s.armed || InFlight(s, c))
      && (forall i, j | 0 <= i < |s.published| && 0 <= j < |s.published| ::
            s.published[i].clientMessageId == s.published[j].clientMessageId ==>
              s.published[i].payload == s.published[j].payload)
  {
    RunKeeps(EMPTY, steps);
    var s := Run(EMPTY, steps);
    forall c | c in s.pending && s.pending[c].status != Failed ensures c in s.armed || InFlight(s, c) {
      assert Open(s, c);
    }
  }

  /** Steps nobody has to ask for: publishes settle, timers fire. */
  predicate Enabled(s: State, step: Step) {
    match step
    case Resolve(i) => i < |s.flights|
    case Reject(i) => i < |s.flights|
    case Timeout(c) => c in s.armed
    case _ => false
  }

  predicate AllEnabled(s: State, steps: seq<Step>)
    decreases |steps|
  {
    steps == [] || (Enabled(s, steps[0]) && AllEnabled(Next(s, steps[0]), steps[1..]))
  }

  /** Two for each publish in flight or still held by a flush, one for each timer. */
  function Weight(flights: seq<Flight>): nat {
    if flights == [] then 0 else 2 * (1 + |flights[0].rest|) + Weight(flights[1..])
  }

  function Work(s: State): nat {
    Weight(s.flights) + |s.armed|
  }

  lemma {:induction false} WeightSplit(a: seq<Flight>, b: seq<Flight>)
    ensures Weight(a + b) == Weight(a) + Weight(b)
  {
    if a == [] {
      assert a + b == b;
    } else {
      assert (a + b)[1..] == a[1..] + b;
      WeightSplit(a[1..], b);
    }
  }

  lemma {:induction false} LandedWeight(flights: seq<Flight>, i: nat)
    requires i < |flights|
    ensures Weight(flights[..i] + flights[i + 1..]) + 2 * (1 + |flights[i].rest|) == Weight(flights)
  {
    WeightSplit(flights[..i], flights[i + 1..]);
    WeightSplit(flights[..i], flights[i..]);
    assert flights == flights[..i] + flights[i..] && flights[i..][1..] == flights[i + 1..];
  }

  lemma {:induction false} FlushWeight(s: State, queue: seq<Entry>)
    ensures Weight(Flush(s, queue).flights) == Weight(s.flights) + 2 * |queue|
    ensures Flush(s, queue).armed == s.armed
  {
    if queue != [] {
      WeightSplit(s.flights, [Flight(queue[0].clientMessageId, queue[1..])]);
    }
  }

  lemma {:induction false} WorkShrinks(s: State, step: Step)
    requires Enabled(s, step)
    ensures Work(Next(s, step)) < Work(s)
  {
    match step
    case Resolve(i) =>
      LandedWeight(s.flights, i);
      var t := Landed(s, i);
      FlushWeight(t.(armed := t.armed + {s.flights[i].clientMessageId}), s.flights[i].rest);
    case Reject(i) =>
      LandedWeight(s.flights, i);
      FlushWeight(Fail(Landed(s, i), s.flights[i].clientMessageId), s.flights[i].rest);
    case Timeout(c) => assert s.armed == (s.armed - {c}) + {c};
    case _ =>
  }

  lemma {:induction false} WorkBounds(s: State, steps: seq<Step>)
    requires AllEnabled(s, steps)
    ensures |steps| + Work(Run(s, steps)) <= Work(s)
    decreases |steps|
  {
    if steps != [] {
      WorkShrinks(s, steps[0]);
      WorkBounds(Next(s, steps[0]), steps[1..]);
    }
  }

  /**
   Nothing waits forever: from any reachable state, publishes settling and timers firing in any
   order make at most Work(s) steps, and when none is left every remaining entry is failed.
   */
  lemma {:induction false} EverySendSettles(history: seq<Step>, settling: seq<Step>, c: ClientMessageId)
    requires AllEnabled(Run(EMPTY, history), settling)
    ensures |settling| <= Work(Run(EMPTY, history))
    ensures var s := Run(Run(EMPTY, history), settling);
      (forall step :: !Enabled(s, step)) && c in s.pending ==> s.pending[c].status == Failed
  {
    var start := Run(EMPTY, history);
    WorkBounds(start, settling);
    RunKeeps(EMPTY, history);
    RunKeeps(start, settling);
    var s := Run(start, settling);
    if (forall step :: !Enabled(s, step)) && c in s.pending {
      assert !Enabled(s, Timeout(c)) && !Enabled(s, Resolve(0));
      assert Open(s, c) ==> c in s.armed || InFlight(s, c);
    }
  }

  /** A row reconciled from a canonical event survives every later history response. */
  lemma {:induction false} HistoryNeverReplaces(held: map<MessageId, Message>, rows: seq<Message>, id: MessageId)
    ensures id in held ==> id in Merge(held, rows) && Merge(held, rows)[id] == held[id]
    ensures id !in held ==> (id in Merge(held, rows) <==> exists k :: 0 <= k < |rows| && rows[k].id == id)
    decreases |rows|
  {
    if rows != [] {
      var next := if rows[0].id in held then held else held[rows[0].id := rows[0]];
      HistoryNeverReplaces(next, rows[1..], id);
      if id !in held {
        if k :| 0 <= k < |rows| && rows[k].id == id { if k > 0 { assert rows[1..][k - 1].id == id; } }
        if k :| 0 <= k < |rows[1..]| && rows[1..][k].id == id { assert rows[k + 1].id == id; }
      }
    }
  }

  // ---------- What reconciling clears ----------

  /** A flush between two publishes still holds an entry of this id. */
  predicate Held(s: State, c: ClientMessageId) {
    exists i, j :: 0 <= i < |s.flights| && 0 <= j < |s.flights[i].rest| && s.flights[i].rest[j].clientMessageId == c
  }

  predicate NeverSends(steps: seq<Step>, c: ClientMessageId) {
    forall i :: 0 <= i < |steps| ==> !(steps[i].Send? && steps[i].clientMessageId == c)
  }

  ghost predicate Keyed(s: State) {
    forall d :: d in s.pending ==> s.pending[d].clientMessageId == d
  }

  lemma {:induction false} FlushStaysOut(s: State, queue: seq<Entry>, c: ClientMessageId)
    requires c !in s.pending && !Held(s, c) && Keyed(s)
    requires forall j :: 0 <= j < |queue| ==> queue[j].clientMessageId != c
    ensures c !in Flush(s, queue).pending && !Held(Flush(s, queue), c) && Keyed(Flush(s, queue))
  {
  }

  lemma {:induction false} LandedStaysOut(s: State, i: nat, c: ClientMessageId)
    requires c !in s.pending && !Held(s, c) && i < |s.flights|
    ensures !Held(Landed(s, i), c)
    ensures forall j :: 0 <= j < |s.flights[i].rest| ==> s.flights[i].rest[j].clientMessageId != c
  {
    var t := Landed(s, i);
    forall k, j | 0 <= k < |t.flights| && 0 <= j < |t.flights[k].rest|
      ensures t.flights[k].rest[j].clientMessageId != c
    {
      assert t.flights[k] == s.flights[if k < i then k else k + 1];
    }
  }

  lemma {:induction false} StepStaysOut(s: State, step: Step, c: ClientMessageId)
    requires c !in s.pending && !Held(s, c) && Keyed(s) && NeverSends([step], c)
    ensures var t := Next(s, step); c !in t.pending && !Held(t, c) && Keyed(t)
  {
    assert [step][0] == step;
    match step
    case FlushQueued(queue) =>
      if IsQueue(s, queue) { FlushStaysOut(s, queue, c); }
    case Resolve(i) =>
      if i < |s.flights| {
        LandedStaysOut(s, i, c);
        FlushStaysOut(Landed(s, i).(armed := s.armed + {s.flights[i].clientMessageId}), s.flights[i].rest, c);
      }
    case Reject(i) =>
      if i < |s.flights| {
        LandedStaysOut(s, i, c);
        FlushStaysOut(Fail(Landed(s, i), s.flights[i].clientMessageId), s.flights[i].rest, c);
      }
    case _ =>
  }

  lemma {:induction false} RunStaysOut(s: State, steps: seq<Step>, c: ClientMessageId)
    requires c !in s.pending && !Held(s, c) && Keyed(s) && NeverSends(steps, c)
    ensures c !in Run(s, steps).pending
    decreases |steps|
  {
    if steps != [] {
      StepStaysOut(s, steps[0], c);
      RunStaysOut(Next(s, steps[0]), steps[1..], c);
    }
  }

  /** A flush that holds the id comes to it. */
  lemma {:induction false} FlushComesTo(s: State, i: nat, j: nat, c: ClientMessageId) returns (steps: seq<Step>)
    requires i < |s.flights| && j < |s.flights[i].rest| && s.flights[i].rest[j].clientMessageId == c
    ensures NeverSends(steps, c) && c in Run(s, steps).pending
    decreases j
  {
    var t := Next(s, Resolve(i));
    if j == 0 {
      steps := [Resolve(i)];
      assert Run(s, steps) == Run(t, []);
    } else {
      assert t.flights[|s.flights| - 1] == Flight(s.flights[i].rest[0].clientMessageId, s.flights[i].rest[1..]);
      var more := FlushComesTo(t, |s.flights| - 1, j - 1, c);
      steps := [Resolve(i)] + more;
    }
  }

  /**
   A reconciled message stays reconciled, exactly: whatever happens short of sending its id again,
   its optimistic entry never comes back, if and only if no flush under way still held the id.
   */
  lemma {:induction false} ReconciledForGoodExactly(history: seq<Step>, c: ClientMessageId, m: Message)
    ensures var s := Next(Run(EMPTY, history), Reconcile(c, m));
      (forall steps :: NeverSends(steps, c) ==> c !in Run(s, steps).pending) <==> !Held(Run(EMPTY, history), c)
  {
    RunKeeps(EMPTY, history);
    var s := Next(Run(EMPTY, history), Reconcile(c, m));
    if Held(s, c) {
      var i, j :| 0 <= i < |s.flights| && 0 <= j < |s.flights[i].rest| && s.flights[i].rest[j].clientMessageId == c;
      var steps := FlushComesTo(s, i, j, c);
    } else {
      forall steps | NeverSends(steps, c) ensures c !in Run(s, steps).pending { RunStaysOut(s, steps, c); }
    }
  }

  lemma {:induction false} RunLast(s: State, steps: seq<Step>, step: Step)
    ensures Run(s, steps + [step]) == Next(Run(s, steps), step)
    decreases |steps|
  {
    if steps == [] {
      assert Run(s, [step]) == Run(Next(s, step), [step][1..]) == Next(s, step);
      assert [] + [step] == [step];
    } else {
      assert (steps + [step])[1..] == steps[1..] + [step];
      RunLast(Next(s, steps[0]), steps[1..], step);
    }
  }

  /** Two sends were queued and are being flushed: the first is published, the second still held. */
  lemma {:induction false} TwoFlushed(p: Payload) returns (steps: seq<Step>)
    ensures var s := Run(EMPTY, steps);
      && s.pending == map[1 := Entry(1, p, Pending), 2 := Entry(2, p, Queued)] && s.messages == map[]
      && s.flights == [Flight(1, [Entry(2, p, Queued)])]
  {
    var first, second := Entry(1, p, Queued), Entry(2, p, Queued);
    var one, both := [Step.Send(1, p, false)], [Step.Send(1, p, false), Step.Send(2, p, false)];
    RunLast(EMPTY, [], one[0]);
    assert [] + [one[0]] == one;
    RunLast(EMPTY, one, both[1]);
    assert one + [both[1]] == both;
    var s := Run(EMPTY, both);
    assert s.pending == map[1 := first, 2 := second];
    var queue := [first, second];
    assert queue[0] == first && queue[1] == second && IsQueue(s, queue);
    RunLast(EMPTY, both, Step.FlushQueued(queue));
    steps := both + [Step.FlushQueued(queue)];
  }

  /** The second one's row arrives while the first is being published; the flush then shows it as pending again. */
  lemma {:induction false} StaleFlushRevives(p: Payload, m: Message) returns (steps: seq<Step>)
    ensures var s := Run(EMPTY, steps + [Reconcile(2, m), Resolve(0)]);
      2 in s.pending && s.pending[2].status == Pending && s.messages == map[m.id := m]
  {
    steps := TwoFlushed(p);
    RunLast(EMPTY, steps, Reconcile(2, m));
    RunLast(EMPTY, steps + [Reconcile(2, m)], Resolve(0));
    assert steps + [Reconcile(2, m)] + [Resolve(0)] == steps + [Reconcile(2, m), Resolve(0)];
    var s := Next(Run(EMPTY, steps), Reconcile(2, m));
    assert s.messages == map[m.id := m];
  }
}
