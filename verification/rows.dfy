/**
 The transcript row builders of both clients: one pass from the newest message down that
 pushes rows, and a second pass that fixes where sender runs end.
 */
module Rows {
  import opened Domain
  import opened Transcript
  import opened Chips
  import L = Lifecycle

  /** Five minutes. */
  const GROUP_GAP_MS := 300000

  datatype Row =
    | DateRow(createdAt: int, id: MessageId, title: string)
    | MessageRow(message: ClientMessage, mine: bool, startsGroup: bool, endsGroup: bool, showSender: bool,
                 replySource: Option<ClientMessage>, chips: seq<Chip>, read: bool)
    | PendingRow(entry: L.Entry)

  /** `dayOf` and `labelOf` stand for the local calendar and the clock. */
  datatype Options = Options(
    identity: Option<UserId>,
    isGroup: bool,
    readWatermark: nat,
    dayOf: int -> int,
    labelOf: int -> string)

  // ---------- The rules for one message ----------

  predicate Groups(previous: ClientMessage, next: ClientMessage) {
    && previous.message.senderId == next.message.senderId
    && previous.message.senderType == next.message.senderType
    && next.message.createdAt - previous.message.createdAt < GROUP_GAP_MS
  }

  predicate Starts(ms: seq<ClientMessage>, i: nat)
    requires i < |ms|
  {
    i == 0 || !Groups(ms[i - 1], ms[i])
  }

  predicate Ends(ms: seq<ClientMessage>, i: nat)
    requires i < |ms|
  {
    i + 1 == |ms| || Starts(ms, i + 1)
  }

  predicate OpensDay(ms: seq<ClientMessage>, i: nat, opts: Options)
    requires i < |ms|
  {
    i == 0 || opts.dayOf(ms[i].message.createdAt) != opts.dayOf(ms[i - 1].message.createdAt)
  }

  predicate Mine(m: ClientMessage, opts: Options) {
    Some(m.message.senderId) == opts.identity && m.message.senderType == UserSender
  }

  /** Map lookup by id: the last entry of an id wins. */
  function ById(ms: seq<ClientMessage>, id: MessageId): Option<ClientMessage>
    decreases |ms|
  {
    if ms == [] then None
    else if Id(ms[|ms| - 1]) == id then Some(ms[|ms| - 1]) else ById(ms[..|ms| - 1], id)
  }

  function RowOf(ms: seq<ClientMessage>, i: nat, opts: Options, endsGroup: bool): Row
    requires i < |ms|
  {
    var m := ms[i];
    MessageRow(m, Mine(m, opts), Starts(ms, i), endsGroup,
               opts.isGroup && !Mine(m, opts) && Starts(ms, i),
               if m.message.replyToId.None? then None else ById(ms, m.message.replyToId.value),
               Aggregate(m.reactions, opts.identity),
               0 < Sequence(m) <= opts.readWatermark)
  }

  function DateRows(ms: seq<ClientMessage>, i: nat, opts: Options): seq<Row>
    requires i < |ms|
  {
    var m := ms[i];
    if OpensDay(ms, i, opts) && opts.labelOf(m.message.createdAt) != ""
    then [DateRow(m.message.createdAt, Id(m), opts.labelOf(m.message.createdAt))] else []
  }

  /** What one message contributes: its separator, if any, and its row. */
  datatype Block = Block(dates: seq<Row>, row: Row)

  function Flat(blocks: seq<Block>): seq<Row>
    decreases |blocks|
  {
    if blocks == [] then []
    else
      var last := blocks[|blocks| - 1];
      Flat(blocks[..|blocks| - 1]) + last.dates + [last.row]
  }

  lemma FlatPush(blocks: seq<Block>, b: Block)
    ensures Flat(blocks + [b]) == Flat(blocks) + b.dates + [b.row]
  {
  }

  /** The k-th newest message's block; `ends` says whether its row ends a run. */
  function BlockAt(ms: seq<ClientMessage>, k: nat, opts: Options, ends: bool): Block
    requires k < |ms|
  {
    Block(DateRows(ms, |ms| - 1 - k, opts), RowOf(ms, |ms| - 1 - k, opts, ends))
  }

  /** The blocks of a transcript, newest first, with every run end in its place. */
  function Blocks(ms: seq<ClientMessage>, opts: Options): seq<Block> {
    seq(|ms|, k requires 0 <= k < |ms| => BlockAt(ms, k, opts, Ends(ms, |ms| - 1 - k)))
  }

  function BuildRows(ms: seq<ClientMessage>, opts: Options): seq<Row> {
    Flat(Blocks(ms, opts))
  }

  function PendingRows(pending: seq<L.Entry>): seq<Row> {
    seq(|pending|, i requires 0 <= i < |pending| => PendingRow(pending[|pending| - 1 - i]))
  }

  // ---------- The two passes ----------

  /** The first pass: every message row provisionally ends its run. */
  function PushedBlocks(ms: seq<ClientMessage>, opts: Options): seq<Block> {
    seq(|ms|, k requires 0 <= k < |ms| => BlockAt(ms, k, opts, true))
  }

  /** The nearest row before position i that is not a date. */
  function Newer(rows: seq<Row>, i: nat): Option<Row>
    requires i <= |rows|
  {
    if i == 0 then None else if rows[i - 1].DateRow? then Newer(rows, i - 1) else Some(rows[i - 1])
  }

  predicate Continues(newer: Option<Row>) {
    newer.Some? && newer.value.MessageRow? && !newer.value.startsGroup
  }

  function Fixed(rows: seq<Row>, i: nat): Row
    requires i < |rows|
  {
    if rows[i].MessageRow? then rows[i].(endsGroup := !Continues(Newer(rows, i))) else rows[i]
  }

  /** The fixes do not disturb what later fixes read. */
  lemma {:induction false} NewerUndisturbed(rows: seq<Row>, mixed: seq<Row>, i: nat)
    requires i <= |rows| == |mixed|
    requires forall k :: 0 <= k < i ==> mixed[k] == rows[k] || mixed[k] == Fixed(rows, k)
    ensures Continues(Newer(mixed, i)) == Continues(Newer(rows, i))
  {
    if i != 0 { NewerUndisturbed(rows, mixed, i - 1); }
  }

  /** The inner scan of the second pass. */
  method NextInTime(rows: array<Row>, i: nat) returns (j: nat)
    requires i < rows.Length
    ensures j <= i && (j > 0 && rows[j - 1].MessageRow? && !rows[j - 1].startsGroup <==> Continues(Newer(rows[..], i)))
  {
    j := i;
    while j > 0 && rows[j - 1].DateRow?
      invariant 0 <= j <= i
      invariant Newer(rows[..], i) == Newer(rows[..], j)
    {
      j := j - 1;
    }
  }

  /** One row of the second pass. */
  method FixRow(rows: array<Row>, i: nat, ghost before: seq<Row>)
    requires i < rows.Length == |before| && rows[i] == before[i]
    requires forall k :: 0 <= k < i ==> rows[k] == Fixed(before, k)
    modifies rows
    ensures rows[i] == Fixed(before, i)
    ensures forall k :: 0 <= k < rows.Length && k != i ==> rows[k] == old(rows[k])
  {
    if rows[i].MessageRow? {
      var j := NextInTime(rows, i);
      NewerUndisturbed(before, rows[..], i);
      var continues := j > 0 && rows[j - 1].MessageRow? && !rows[j - 1].startsGroup;
      rows[i] := rows[i].(endsGroup := !continues);
    }
  }

  /** The second pass, in place. */
  method FixEnds(rows: array<Row>)
    modifies rows
    ensures forall k :: 0 <= k < rows.Length ==> rows[k] == Fixed(old(rows[..]), k)
  {
    ghost var before := rows[..];
    for i := 0 to rows.Length
      invariant forall k :: 0 <= k < i ==> rows[k] == Fixed(before, k)
      invariant forall k :: i <= k < rows.Length ==> rows[k] == before[k]
    {
      FixRow(rows, i, before);
    }
  }

  lemma {:induction false} NewerInPrefix(a: seq<Row>, b: seq<Row>, i: nat)
    requires i <= |a|
    ensures Newer(a + b, i) == Newer(a, i)
  {
    if i != 0 { NewerInPrefix(a, b, i - 1); }
  }

  lemma {:induction false} FixedInPrefix(a: seq<Row>, b: seq<Row>, k: nat)
    requires k < |a|
    ensures Fixed(a + b, k) == Fixed(a, k)
  {
    NewerInPrefix(a, b, k);
  }

  predicate WellFormed(b: Block) {
    |b.dates| <= 1 && (forall j :: 0 <= j < |b.dates| ==> b.dates[j].DateRow?) && b.row.MessageRow?
  }

  predicate AllWellFormed(blocks: seq<Block>) {
    forall k :: 0 <= k < |blocks| ==> WellFormed(blocks[k])
  }

  /** Scanning back from the end of the rows skips separators and finds the last message row. */
  lemma NewerOfFlat(blocks: seq<Block>, dates: seq<Row>)
    requires AllWellFormed(blocks) && |dates| <= 1 && forall j :: 0 <= j < |dates| ==> dates[j].DateRow?
    ensures var above := Flat(blocks) + dates;
      Newer(above, |above|) == if blocks == [] then None else Some(blocks[|blocks| - 1].row)
  {
  }

  /** The same block, its row's run end fixed by the row above. */
  predicate Finished(pushed: seq<Block>, done: seq<Block>, k: nat)
    requires k < |pushed| == |done| && pushed[k].row.MessageRow?
  {
    && done[k].dates == pushed[k].dates
    && done[k].row
         == pushed[k].row.(endsGroup := k == 0 || !Continues(Some(pushed[k - 1].row)))
  }

  /** Fixing what one message pushed, given that everything above it comes out fixed. */
  lemma {:induction false} FixedStep(above: seq<Row>, done: seq<Row>, dates: seq<Row>, row: Row, ends: bool, k: nat)
    requires |above| == |done| && forall j :: 0 <= j < |above| ==> Fixed(above, j) == done[j]
    requires (forall j :: 0 <= j < |dates| ==> dates[j].DateRow?) && row.MessageRow?
    requires ends == !Continues(Newer(above + dates, |above + dates|)) && k < |above + dates + [row]|
    ensures Fixed(above + dates + [row], k) == (done + dates + [row.(endsGroup := ends)])[k]
  {
    if k < |above| {
      FixedInPrefix(above + dates, [row], k);
      FixedInPrefix(above, dates, k);
    } else {
      NewerInPrefix(above + dates, [row], |above + dates|);
    }
  }

  /** The second pass over what the first pushed gives the finished rows. */
  lemma {:induction false} TwoPasses(pushed: seq<Block>, done: seq<Block>)
    requires |pushed| == |done| && AllWellFormed(pushed)
    requires forall k :: 0 <= k < |pushed| ==> Finished(pushed, done, k)
    ensures |Flat(pushed)| == |Flat(done)|
    ensures forall k :: 0 <= k < |Flat(done)| ==> Fixed(Flat(pushed), k) == Flat(done)[k]
    decreases |pushed|
  {
    if pushed != [] {
      var n := |pushed| - 1;
      forall k | 0 <= k < n ensures Finished(pushed[..n], done[..n], k) { assert Finished(pushed, done, k); }
      TwoPasses(pushed[..n], done[..n]);
      NewerOfFlat(pushed[..n], pushed[n].dates);
      assert Finished(pushed, done, n);
      forall k | 0 <= k < |Flat(done)| ensures Fixed(Flat(pushed), k) == Flat(done)[k] {
        FixedStep(Flat(pushed[..n]), Flat(done[..n]), pushed[n].dates, pushed[n].row, done[n].row.endsGroup, k);
      }
    }
  }

  lemma BlockFinished(ms: seq<ClientMessage>, opts: Options, k: nat)
    requires k < |ms|
    ensures WellFormed(BlockAt(ms, k, opts, true)) && WellFormed(BlockAt(ms, k, opts, Ends(ms, |ms| - 1 - k)))
    ensures var row := BlockAt(ms, k, opts, true).row;
      BlockAt(ms, k, opts, Ends(ms, |ms| - 1 - k)).row
        == row.(endsGroup := k == 0 || !Continues(Some(BlockAt(ms, k - 1, opts, true).row)))
  {
  }

  lemma {:induction false} BlocksFinished(ms: seq<ClientMessage>, opts: Options)
    ensures var pushed, done := PushedBlocks(ms, opts), Blocks(ms, opts);
      && |pushed| == |done| == |ms| && AllWellFormed(pushed) && AllWellFormed(done)
      && forall k :: 0 <= k < |ms| ==> Finished(pushed, done, k)
  {
    var pushed, done := PushedBlocks(ms, opts), Blocks(ms, opts);
    forall k | 0 <= k < |ms| ensures WellFormed(pushed[k]) && WellFormed(done[k]) && Finished(pushed, done, k) {
      BlockFinished(ms, opts, k);
    }
  }

  lemma {:induction false} PushedNext(ms: seq<ClientMessage>, i: nat, opts: Options)
    requires i < |ms|
    ensures Flat(PushedBlocks(ms, opts)[..|ms| - i])
         == Flat(PushedBlocks(ms, opts)[..|ms| - 1 - i]) + DateRows(ms, i, opts) + [RowOf(ms, i, opts, true)]
  {
    var k := |ms| - 1 - i;
    var b := BlockAt(ms, k, opts, true);
    assert PushedBlocks(ms, opts)[k] == b;
    assert PushedBlocks(ms, opts)[..k + 1] == PushedBlocks(ms, opts)[..k] + [b];
    FlatPush(PushedBlocks(ms, opts)[..k], b);
  }

  /** The rows pushed for one message: its separator, if it opens a day, and the message row. */
  method PushMessage(ms: seq<ClientMessage>, i: nat, chips: seq<Chip>, opts: Options,
      pushed: seq<Row>) returns (out: seq<Row>)
    requires i < |ms| && chips == Aggregate(ms[i].reactions, opts.identity)
    requires pushed == Flat(PushedBlocks(ms, opts)[..|ms| - 1 - i])
    ensures out == Flat(PushedBlocks(ms, opts)[..|ms| - i])
  {
    var m := ms[i];
    var mine := Mine(m, opts);
    var groupsWithPrevious := i > 0 && Groups(ms[i - 1], m);
    out := pushed;
    if i == 0 || opts.dayOf(m.message.createdAt) != opts.dayOf(ms[i - 1].message.createdAt) {
      var title := opts.labelOf(m.message.createdAt);
      if title != "" {
        out := out + [DateRow(m.message.createdAt, Id(m), title)];
      }
    }
    assert out == pushed + DateRows(ms, i, opts);
    var replySource := if m.message.replyToId.None? then None else ById(ms, m.message.replyToId.value);
    PushedNext(ms, i, opts);
    out := out + [MessageRow(m, mine, !groupsWithPrevious, true, opts.isGroup && !mine && !groupsWithPrevious,
                             replySource, chips, 0 < Sequence(m) <= opts.readWatermark)];
  }

  method SecondPass(ms: seq<ClientMessage>, opts: Options, pushed: seq<Row>) returns (rows: seq<Row>)
    requires pushed == Flat(PushedBlocks(ms, opts))
    ensures rows == BuildRows(ms, opts)
  {
    var a := new Row[|pushed|](i requires 0 <= i < |pushed| => pushed[i]);
    assert a[..] == pushed;
    FixEnds(a);
    BlocksFinished(ms, opts);
    TwoPasses(PushedBlocks(ms, opts), Blocks(ms, opts));
    rows := a[..];
  }

  /** The first pass of the mobile builder, chips from aggregateChips. */
  method FirstPass(ms: seq<ClientMessage>, opts: Options) returns (pushed: seq<Row>)
    ensures pushed == Flat(PushedBlocks(ms, opts))
  {
    pushed := [];
    var i := |ms|;
    while i > 0
      invariant 0 <= i <= |ms|
      invariant pushed == Flat(PushedBlocks(ms, opts)[..|ms| - i])
    {
      i := i - 1;
      var chips := AggregateChips(ms[i].reactions, opts.identity);
      pushed := PushMessage(ms, i, chips, opts, pushed);
    }
    assert PushedBlocks(ms, opts)[..|ms|] == PushedBlocks(ms, opts);
  }

  /** The mobile builder: pending entries newest first in front. */
  method BuildChatRows(ms: seq<ClientMessage>, pending: seq<L.Entry>, opts: Options) returns (out: seq<Row>)
    ensures out == PendingRows(pending) + BuildRows(ms, opts)
    ensures |pending| <= |out| && out[|pending|..] == BuildRows(ms, opts)
    ensures forall k :: 0 <= k < |pending| ==> out[k] == PendingRow(pending[|pending| - 1 - k])
  {
    var pushed := FirstPass(ms, opts);
    var rows := SecondPass(ms, opts, pushed);
    out := PendingRows(pending) + rows;
  }

  /** The web builder: one chip map reused and cleared for every message. */
  method BuildWebRows(ms: seq<ClientMessage>, opts: Options) returns (rows: seq<Row>)
    ensures rows == BuildRows(ms, opts)
  {
    var pushed: seq<Row> := [];
    var chipMap: seq<Chip> := [];
    var i := |ms|;
    while i > 0
      invariant 0 <= i <= |ms|
      invariant pushed == Flat(PushedBlocks(ms, opts)[..|ms| - i])
    {
      i := i - 1;
      var reactions := ms[i].reactions;
      chipMap := [];
      for k := 0 to |reactions|
        invariant chipMap == Tally(reactions[..k], opts.identity)
      {
        assert reactions[..k + 1][..k] == reactions[..k];
        chipMap := Count(chipMap, reactions[k], opts.identity);
      }
      assert reactions[..|reactions|] == reactions;
      pushed := PushMessage(ms, i, SortChips(chipMap), opts, pushed);
    }
    assert PushedBlocks(ms, opts)[..|ms|] == PushedBlocks(ms, opts);
    rows := SecondPass(ms, opts, pushed);
  }

  // ---------- What the rows show ----------

  function MessageRows(rows: seq<Row>): seq<Row>
    decreases |rows|
  {
    if rows == [] then []
    else MessageRows(rows[..|rows| - 1]) + (if rows[|rows| - 1].MessageRow? then [rows[|rows| - 1]] else [])
  }

  lemma {:induction false} MessageRowsPush(above: seq<Row>, dates: seq<Row>, row: Row)
    requires |dates| <= 1 && (forall j :: 0 <= j < |dates| ==> dates[j].DateRow?) && row.MessageRow?
    ensures MessageRows(above + dates + [row]) == MessageRows(above) + [row]
  {
    assert (above + dates + [row])[..|above + dates|] == above + dates;
    if dates == [] {
      assert above + dates == above;
    } else {
      assert (above + dates)[..|above|] == above;
    }
  }

  function RowsOf(blocks: seq<Block>): seq<Row>
    decreases |blocks|
  {
    if blocks == [] then [] else RowsOf(blocks[..|blocks| - 1]) + [blocks[|blocks| - 1].row]
  }

  lemma {:induction false} RowsOfAt(blocks: seq<Block>, k: nat)
    requires k < |blocks|
    ensures |RowsOf(blocks)| == |blocks| && RowsOf(blocks)[k] == blocks[k].row
    decreases |blocks|
  {
    var n := |blocks| - 1;
    if n > 0 { RowsOfAt(blocks[..n], if k < n then k else 0); }
  }

  lemma {:induction false} MessageRowsOfFlat(blocks: seq<Block>)
    requires AllWellFormed(blocks)
    ensures MessageRows(Flat(blocks)) == RowsOf(blocks)
    decreases |blocks|
  {
    if blocks != [] {
      var n := |blocks| - 1;
      var above, last := Flat(blocks[..n]), blocks[n];
      MessageRowsOfFlat(blocks[..n]);
      assert WellFormed(last);
      MessageRowsPush(above, last.dates, last.row);
    }
  }

  /** The message rows are the transcript newest first, each by the rules for its message. */
  lemma {:induction false} RowsAreTranscriptReversed(ms: seq<ClientMessage>, opts: Options)
    ensures |MessageRows(BuildRows(ms, opts))| == |ms|
    ensures forall k :: 0 <= k < |ms| ==>
      MessageRows(BuildRows(ms, opts))[k] == RowOf(ms, |ms| - 1 - k, opts, Ends(ms, |ms| - 1 - k))
  {
    var blocks := Blocks(ms, opts);
    BlocksFinished(ms, opts);
    MessageRowsOfFlat(blocks);
    if ms != [] { RowsOfAt(blocks, 0); }
    forall k | 0 <= k < |ms|
      ensures MessageRows(BuildRows(ms, opts))[k] == RowOf(ms, |ms| - 1 - k, opts, Ends(ms, |ms| - 1 - k))
    {
      RowsOfAt(blocks, k);
      assert blocks[k] == BlockAt(ms, k, opts, Ends(ms, |ms| - 1 - k));
    }
  }

  /** A maximal run of messages that group: what one bubble stack shows. */
  ghost predicate MaximalRun(ms: seq<ClientMessage>, a: nat, b: nat) {
    && a <= b < |ms|
    && (forall k :: a < k <= b ==> Groups(ms[k - 1], ms[k]))
    && (a == 0 || !Groups(ms[a - 1], ms[a]))
    && (b + 1 == |ms| || !Groups(ms[b], ms[b + 1]))
  }

  lemma {:induction false} RunFrom(ms: seq<ClientMessage>, a: nat, b: nat) returns (end: nat)
    requires a <= b < |ms| && Starts(ms, a) && forall k :: a < k <= b ==> Groups(ms[k - 1], ms[k])
    ensures b <= end && MaximalRun(ms, a, end)
    decreases |ms| - b
  {
    if Ends(ms, b) { end := b; } else { end := RunFrom(ms, a, b + 1); }
  }

  lemma {:induction false} RunUpTo(ms: seq<ClientMessage>, a: nat, b: nat) returns (start: nat)
    requires a <= b < |ms| && Ends(ms, b) && forall k :: a < k <= b ==> Groups(ms[k - 1], ms[k])
    ensures start <= a && MaximalRun(ms, start, b)
    decreases a
  {
    if Starts(ms, a) { start := a; } else { start := RunUpTo(ms, a - 1, b); }
  }

  /** startsGroup and endsGroup bracket exactly the maximal runs, and every message is in one. */
  lemma {:induction false} RunsBracketed(ms: seq<ClientMessage>, i: nat, opts: Options)
    requires i < |ms|
    ensures RowIndex(ms, i, opts) < |BuildRows(ms, opts)| && BuildRows(ms, opts)[RowIndex(ms, i, opts)].MessageRow?
    ensures var row := BuildRows(ms, opts)[RowIndex(ms, i, opts)];
      && row.message == ms[i]
      && (row.startsGroup <==> exists b :: MaximalRun(ms, i, b))
      && (row.endsGroup <==> exists a :: MaximalRun(ms, a, i))
      && exists a: nat, b: nat :: a <= i <= b && MaximalRun(ms, a, b)
  {
    BuiltAt(ms, i, opts);
    if Starts(ms, i) { var b := RunFrom(ms, i, i); }
    if Ends(ms, i) { var a := RunUpTo(ms, i, i); }
    var a := RunContaining(ms, i);
    var b := RunFrom(ms, a, i);
  }

  lemma {:induction false} RunContaining(ms: seq<ClientMessage>, i: nat) returns (a: nat)
    requires i < |ms|
    ensures a <= i && Starts(ms, a) && forall k :: a < k <= i ==> Groups(ms[k - 1], ms[k])
  {
    if Starts(ms, i) { a := i; } else { a := RunContaining(ms, i - 1); }
  }

  /** Each message is in only one maximal run. */
  lemma RunsDisjoint(ms: seq<ClientMessage>, a: nat, b: nat, c: nat, d: nat, i: nat)
    requires MaximalRun(ms, a, b) && MaximalRun(ms, c, d) && a <= i <= b && c <= i <= d
    ensures a == c && b == d
  {
  }

  // ---------- What one row shows ----------

  /** A change of sender, or five minutes between the two messages. */
  predicate Apart(previous: Message, next: Message) {
    previous.senderId != next.senderId || previous.senderType != next.senderType
    || next.createdAt - previous.createdAt >= 5 * 60 * 1000
  }

  /** The latest message with the id, if there is one. */
  ghost predicate Latest(ms: seq<ClientMessage>, id: MessageId, found: Option<ClientMessage>) {
    match found
    case None => forall j :: 0 <= j < |ms| ==> Id(ms[j]) != id
    case Some(m) =>
      exists j ::
        && 0 <= j < |ms| && ms[j] == m && Id(m) == id
        && forall k :: j < k < |ms| ==> Id(ms[k]) != id
  }

  lemma {:induction false} ByIdIsLatest(ms: seq<ClientMessage>, id: MessageId)
    ensures Latest(ms, id, ById(ms, id))
    decreases |ms|
  {
    if ms != [] {
      var n := |ms| - 1;
      ByIdIsLatest(ms[..n], id);
      if Id(ms[n]) != id && ById(ms[..n], id).Some? {
        var m := ById(ms[..n], id).value;
        var j :| 0 <= j < n && ms[..n][j] == m && forall k :: j < k < n ==> Id(ms[..n][k]) != id;
        assert ms[j] == m;
        forall k | j < k < |ms| ensures Id(ms[k]) != id { if k < n { assert ms[..n][k] == ms[k]; } }
      }
    }
  }

  /**
   The row of a message says whose it is, where its run starts and ends by sender and time, whether to
   name the sender, which message it answers, its chips, and whether it was read.
   */
  lemma {:induction false} RowExactly(ms: seq<ClientMessage>, i: nat, opts: Options)
    requires i < |ms|
    ensures RowIndex(ms, i, opts) < |BuildRows(ms, opts)| && BuildRows(ms, opts)[RowIndex(ms, i, opts)].MessageRow?
    ensures var row, m := BuildRows(ms, opts)[RowIndex(ms, i, opts)], ms[i].message;
      && row.message == ms[i]
      && (row.mine <==> opts.identity == Some(m.senderId) && m.senderType == UserSender)
      && (row.startsGroup <==> i == 0 || Apart(ms[i - 1].message, m))
      && (row.endsGroup <==> i + 1 == |ms| || Apart(m, ms[i + 1].message))
      && (row.showSender <==> opts.isGroup && !row.mine && row.startsGroup)
      && (row.read <==> 1 <= m.sequence <= opts.readWatermark)
      && row.chips == Aggregate(ms[i].reactions, opts.identity)
      && (m.replyToId.None? ==> row.replySource.None?)
      && (m.replyToId.Some? ==> Latest(ms, m.replyToId.value, row.replySource))
  {
    BuiltAt(ms, i, opts);
    if ms[i].message.replyToId.Some? { ByIdIsLatest(ms, ms[i].message.replyToId.value); }
  }

  lemma {:induction false} DateBuilt(ms: seq<ClientMessage>, i: nat, opts: Options)
    requires i < |ms| && DateRows(ms, i, opts) != []
    ensures var k := RowIndex(ms, i, opts);
      1 <= k < |BuildRows(ms, opts)| && [BuildRows(ms, opts)[k - 1]] == DateRows(ms, i, opts)
  {
    BuiltAt(ms, i, opts);
    var rows, k := BuildRows(ms, opts), RowIndex(ms, i, opts);
    assert rows[k - 1..k] == [rows[k - 1]];
  }

  /**
   Right before a message's row stands its separator if the message is the first or on another day than
   the one before it, and its label is not empty; otherwise the row of the next message, if any.
   */
  lemma {:induction false} SeparatedExactly(ms: seq<ClientMessage>, i: nat, opts: Options)
    requires i < |ms|
    ensures RowIndex(ms, i, opts) < |BuildRows(ms, opts)|
    ensures var rows, k, at := BuildRows(ms, opts), RowIndex(ms, i, opts), ms[i].message.createdAt;
      if (i == 0 || opts.dayOf(at) != opts.dayOf(ms[i - 1].message.createdAt)) && opts.labelOf(at) != ""
      then k >= 1 && rows[k - 1] == DateRow(at, Id(ms[i]), opts.labelOf(at))
      else if i + 1 == |ms| then k == 0
      else k >= 1 && rows[k - 1].MessageRow? && rows[k - 1].message == ms[i + 1]
  {
    BuiltAt(ms, i, opts);
    if DateRows(ms, i, opts) != [] {
      DateBuilt(ms, i, opts);
    } else if i + 1 < |ms| {
      BuiltAt(ms, i + 1, opts);
      NextBlock(ms, i, opts);
    } else {
      assert Blocks(ms, opts)[..0] == [];
    }
  }

  /** Without a separator a row follows that of the next message. */
  lemma {:induction false} NextBlock(ms: seq<ClientMessage>, i: nat, opts: Options)
    requires i + 1 < |ms|
    ensures RowIndex(ms, i, opts) == RowIndex(ms, i + 1, opts) + 1 + |DateRows(ms, i, opts)|
  {
    var blocks, n := Blocks(ms, opts), |ms| - 2 - i;
    assert blocks[..n + 1] == blocks[..n] + [blocks[n]];
    FlatPush(blocks[..n], blocks[n]);
    assert blocks[n] == BlockAt(ms, n, opts, Ends(ms, i + 1));
  }

  // ---------- Day separators ----------

  /** Where the row of message i stands among the built rows. */
  function RowIndex(ms: seq<ClientMessage>, i: nat, opts: Options): nat
    requires i < |ms|
  {
    |Flat(Blocks(ms, opts)[..|ms| - 1 - i])| + |DateRows(ms, i, opts)|
  }

  /** The rows of a block follow those of the blocks before it. */
  lemma {:induction false} FlatAt(blocks: seq<Block>, k: nat)
    requires k < |blocks|
    ensures var above := Flat(blocks[..k]);
      && |above| + |blocks[k].dates| < |Flat(blocks)|
      && Flat(blocks)[|above| + |blocks[k].dates|] == blocks[k].row
      && Flat(blocks)[|above|..|above| + |blocks[k].dates|] == blocks[k].dates
    decreases |blocks|
  {
    var n := |blocks| - 1;
    if k < n {
      FlatAt(blocks[..n], k);
      assert blocks[..n][..k] == blocks[..k];
      var front, from := Flat(blocks[..n]), |Flat(blocks[..k])|;
      var to := from + |blocks[k].dates|;
      assert Flat(blocks) == front + blocks[n].dates + [blocks[n].row];
      assert front[from..to] == (front + blocks[n].dates + [blocks[n].row])[from..to];
    }
  }

  /** The built rows at the index of a message: its row, with its separator, if any, right before. */
  lemma {:induction false} BuiltAt(ms: seq<ClientMessage>, i: nat, opts: Options)
    requires i < |ms|
    ensures var rows, k := BuildRows(ms, opts), RowIndex(ms, i, opts);
      && k < |rows| && rows[k] == RowOf(ms, i, opts, Ends(ms, i))
      && |DateRows(ms, i, opts)| <= k && rows[k - |DateRows(ms, i, opts)|..k] == DateRows(ms, i, opts)
  {
    var k := |ms| - 1 - i;
    FlatAt(Blocks(ms, opts), k);
    assert Blocks(ms, opts)[k] == BlockAt(ms, k, opts, Ends(ms, i));
  }

  /**
   The comment over the second pass says that a day break always ends a run; the code skips
   date rows there. Built by the two passes, the rows around a day break are, newest first, the
   row of the message that opens the day, with the separator before it, and later the row of
   the message below; that row ends a run if and only if the two messages do not group.
   */
  lemma {:induction false} DayBreakEndsRunExactly(ms: seq<ClientMessage>, i: nat, opts: Options)
    requires i + 1 < |ms| && OpensDay(ms, i + 1, opts) && opts.labelOf(ms[i + 1].message.createdAt) != ""
    ensures var pushed, rows := Flat(PushedBlocks(ms, opts)), BuildRows(ms, opts);
      var newer, older := RowIndex(ms, i + 1, opts), RowIndex(ms, i, opts);
      && |pushed| == |rows| && 1 <= newer < older < |rows|
      && rows[newer - 1].DateRow? && rows[newer - 1].id == Id(ms[i + 1])
      && rows[newer].MessageRow? && rows[newer].message == ms[i + 1]
      && rows[older].MessageRow? && rows[older].message == ms[i]
      && Fixed(pushed, older) == rows[older]
      && (rows[older].endsGroup <==> !Groups(ms[i], ms[i + 1]))
  {
    BuiltAt(ms, i, opts);
    BuiltAt(ms, i + 1, opts);
    NextBlock(ms, i, opts);
    FixedIsBuilt(ms, opts, RowIndex(ms, i, opts));
    var newer := RowIndex(ms, i + 1, opts);
    assert BuildRows(ms, opts)[newer - 1..newer][0] == DateRows(ms, i + 1, opts)[0];
  }

  /** What the second pass makes of a pushed row is the built row. */
  lemma {:induction false} FixedIsBuilt(ms: seq<ClientMessage>, opts: Options, k: nat)
    requires k < |BuildRows(ms, opts)|
    ensures |Flat(PushedBlocks(ms, opts))| == |BuildRows(ms, opts)|
    ensures Fixed(Flat(PushedBlocks(ms, opts)), k) == BuildRows(ms, opts)[k]
  {
    BlocksFinished(ms, opts);
    TwoPasses(PushedBlocks(ms, opts), Blocks(ms, opts));
  }

  /**
   Two messages one minute apart on either side of midnight. The built rows are the newer
   message under its separator and the older one under its own, in one run.
   */
  lemma {:induction false} DayBreakInsideRun(first: Message)
    requires first.createdAt == 86400000 - 30000
    ensures var opts := Options(None, false, 0, (t: int) => t / 86400000, (t: int) => "day");
      var second := first.(id := first.id + 1, createdAt := 86400000 + 30000);
      var ms := [ClientMessage(first, []), ClientMessage(second, [])];
      var rows := BuildRows(ms, opts);
      && |rows| == 4 && rows[0].DateRow? && rows[0].id == first.id + 1 && rows[2].DateRow? && rows[2].id == first.id
      && rows[1].MessageRow? && rows[1].message == ms[1] && rows[1].endsGroup && !rows[1].startsGroup
      && rows[3].MessageRow? && rows[3].message == ms[0] && !rows[3].endsGroup && rows[3].startsGroup
  {
    var opts := Options(None, false, 0, (t: int) => t / 86400000, (t: int) => "day");
    var ms := [ClientMessage(first, []), ClientMessage(first.(id := first.id + 1, createdAt := 86400000 + 30000), [])];
    TwoMessages(ms, opts);
    assert DateRows(ms, 1, opts) == [DateRow(86400000 + 30000, first.id + 1, "day")];
    assert DateRows(ms, 0, opts) == [DateRow(86400000 - 30000, first.id, "day")];
  }

  lemma {:induction false} TwoMessages(ms: seq<ClientMessage>, opts: Options)
    requires |ms| == 2
    ensures BuildRows(ms, opts) == DateRows(ms, 1, opts) + [RowOf(ms, 1, opts, true)]
                                 + (DateRows(ms, 0, opts) + [RowOf(ms, 0, opts, Starts(ms, 1))])
  {
    var blocks := Blocks(ms, opts);
    var b, c := blocks[0], blocks[1];
    assert blocks == [] + [b] + [c];
    FlatPush([], b);
    FlatPush([] + [b], c);
    assert Ends(ms, 1) && (Ends(ms, 0) <==> Starts(ms, 1));
    assert b == BlockAt(ms, 0, opts, Ends(ms, 1)) && c == BlockAt(ms, 1, opts, Ends(ms, 0));
  }

  predicate Separates(ms: seq<ClientMessage>, i: nat, opts: Options, date: Row)
    requires i < |ms|
  {
    date.DateRow? && OpensDay(ms, i, opts) && date.id == Id(ms[i])
      && date.title == opts.labelOf(ms[i].message.createdAt) != ""
  }

  /** A separator is pushed right before the row of its block. */
  lemma {:induction false} DateInBlock(blocks: seq<Block>, k: nat) returns (b: nat)
    requires AllWellFormed(blocks) && k < |Flat(blocks)| && Flat(blocks)[k].DateRow?
    ensures b < |blocks| && blocks[b].dates == [Flat(blocks)[k]]
    ensures k + 1 < |Flat(blocks)| && Flat(blocks)[k + 1] == blocks[b].row
    decreases |blocks|
  {
    var n := |blocks| - 1;
    if k < |Flat(blocks[..n])| { b := DateInBlock(blocks[..n], k); } else { b := n; }
  }

  /**
   Where separators stand: each is immediately followed, in newest-first order, by the row of
   the message that opens its day. Displayed oldest first it therefore sits below that message.
   */
  lemma {:induction false} SeparatorPlace(ms: seq<ClientMessage>, opts: Options, k: nat)
    requires k < |BuildRows(ms, opts)| && BuildRows(ms, opts)[k].DateRow?
    ensures k + 1 < |BuildRows(ms, opts)|
    ensures exists m | 0 <= m < |ms| && Separates(ms, m, opts, BuildRows(ms, opts)[k]) ::
      BuildRows(ms, opts)[k + 1] == RowOf(ms, m, opts, Ends(ms, m))
  {
    BlocksFinished(ms, opts);
    var b := DateInBlock(Blocks(ms, opts), k);
    var m: nat := |ms| - 1 - b;
    assert Blocks(ms, opts)[b] == BlockAt(ms, b, opts, Ends(ms, m));
    assert DateRows(ms, m, opts) == [BuildRows(ms, opts)[k]];
    assert Separates(ms, m, opts, BuildRows(ms, opts)[k]);
  }
}
