/**
 Opening a direct chat: any number of createConversation calls for any pairs, interleaved
 at their database steps. The unique index on directPairKey decides races; rows from
 before the key existed are adopted.
 */
module Direct {
  import opened Domain
  import opened PairKey

  type RowId = nat

  datatype Row = Row(direct: bool, key: Option<string>, members: set<string>, createdAt: int)

  type Rows = map<RowId, Row>

  /** Where a call stands between two awaited database steps. */
  datatype Stage =
    | Looking
    | Searching
    | Adopting(row: RowId, have: set<string>)
    | Creating
    | Repairing(row: RowId)
    | Restoring(row: RowId, have: set<string>)
    | Losing
    | Returned(row: RowId)
    | Failed

  datatype Call = Call(a: string, b: string, stage: Stage)

  datatype World = World(rows: Rows, calls: map<nat, Call>)

  datatype Step =
    | Open(call: nat, a: string, b: string)
    | Advance(call: nat, found: Option<RowId>, newId: RowId, now: int)

  predicate Pair(a: string, b: string) {
    a != b && ColonFree(a) && ColonFree(b)
  }

  function Key(a: string, b: string): string
    requires a != b
  {
    DirectPairKey(a, b).value
  }

  // ---------- Database steps ----------

  predicate Owns(rows: Rows, r: RowId, key: string) {
    r in rows && rows[r].key == Some(key)
  }

  predicate Taken(rows: Rows, key: string) {
    exists r :: r in rows && rows[r].key == Some(key)
  }

  /** findUnique by the pair key. */
  predicate FindsKey(rows: Rows, key: string, found: Option<RowId>) {
    if found.Some? then Owns(rows, found.value, key) else !Taken(rows, key)
  }

  predicate Adoptable(rows: Rows, r: RowId, a: string, b: string) {
    r in rows && rows[r].direct && rows[r].key.None? && rows[r].members <= {a, b}
  }

  /** findFirst of the unkeyed DIRECT rows whose members are all in the pair, oldest first. */
  predicate FindsLegacy(rows: Rows, a: string, b: string, found: Option<RowId>) {
    if found.Some?
    then Adoptable(rows, found.value, a, b)
         && forall r :: r in rows && Adoptable(rows, r, a, b) ==> rows[found.value].createdAt <= rows[r].createdAt
    else forall r :: r in rows ==> !Adoptable(rows, r, a, b)
  }

  /** createMany of the members that were missing when `have` was read commits unless one is there by now. */
  predicate InsertCommits(rows: Rows, r: RowId, have: set<string>, a: string, b: string) {
    r in rows && ({a, b} - have) * rows[r].members == {}
  }

  function Fill(rows: Rows, r: RowId, have: set<string>, a: string, b: string): Rows
    requires r in rows
  {
    rows[r := rows[r].(members := rows[r].members + ({a, b} - have))]
  }

  /** The adoption commits unless the key index or the membership key objects. */
  predicate AdoptCommits(rows: Rows, r: RowId, have: set<string>, a: string, b: string)
    requires a != b
  {
    InsertCommits(rows, r, have, a, b) && forall s :: s in rows && s != r ==> rows[s].key != Some(Key(a, b))
  }

  function Adopt(rows: Rows, r: RowId, have: set<string>, a: string, b: string): Rows
    requires a != b && r in rows
  {
    Fill(rows, r, have, a, b)[r := Fill(rows, r, have, a, b)[r].(key := Some(Key(a, b)))]
  }

  function Create(rows: Rows, r: RowId, a: string, b: string, now: int): Rows
    requires a != b
  {
    rows[r := Row(true, Some(Key(a, b)), {a, b}, now)]
  }

  /** The transactions as the controller runs them, statement by statement. */
  class Conversations {
    var rows: Rows

    constructor (rows: Rows)
      ensures this.rows == rows
    {
      this.rows := rows;
    }

    /** INSERT of one member row; false is a violation of its primary key. */
    method InsertMember(r: RowId, user: string) returns (ok: bool)
      requires r in rows
      modifies this
      ensures ok <==> user !in old(rows)[r].members
      ensures rows == if ok then old(rows)[r := old(rows)[r].(members := old(rows)[r].members + {user})] else old(rows)
    {
      if user in rows[r].members {
        return false;
      }
      rows := rows[r := rows[r].(members := rows[r].members + {user})];
      return true;
    }

    /** createMany without skipDuplicates: both rows, or neither when one violates the key. */
    method InsertMissing(r: RowId, have: set<string>, a: string, b: string) returns (ok: bool)
      requires a != b && r in rows
      modifies this
      ensures ok <==> InsertCommits(old(rows), r, have, a, b)
      ensures rows == if ok then Fill(old(rows), r, have, a, b) else old(rows)
    {
      var begun := rows;
      if a !in have {
        var inserted := InsertMember(r, a);
        if !inserted {
          assert a in ({a, b} - have) * begun[r].members;
          return false;
        }
      }
      if b !in have {
        var inserted := InsertMember(r, b);
        if !inserted {
          rows := begun;
          assert b in ({a, b} - have) * begun[r].members;
          return false;
        }
      }
      assert rows[r].members == begun[r].members + ({a, b} - have);
      return true;
    }

    /** Stamp the key, insert the members that were missing when the row was found; roll back on P2002. */
    method AdoptLegacy(r: RowId, have: set<string>, a: string, b: string) returns (ok: bool)
      requires a != b && r in rows
      modifies this
      ensures ok <==> AdoptCommits(old(rows), r, have, a, b)
      ensures rows == if ok then Adopt(old(rows), r, have, a, b) else old(rows)
    {
      var begun := rows;
      if exists s :: s in rows && s != r && rows[s].key == Some(Key(a, b)) {
        return false;
      }
      rows := rows[r := rows[r].(key := Some(Key(a, b)))];
      ok := InsertMissing(r, have, a, b);
      if !ok {
        rows := begun;
      }
    }

    /** The insert half of the repair; `have` is what its findMany returned. A violation is thrown to the caller. */
    method RepairMembership(r: RowId, have: set<string>, a: string, b: string) returns (ok: bool)
      requires a != b && r in rows
      modifies this
      ensures ok <==> InsertCommits(old(rows), r, have, a, b)
      ensures rows == if ok then Fill(old(rows), r, have, a, b) else old(rows)
    {
      ok := InsertMissing(r, have, a, b);
    }

    method CreateRow(r: RowId, a: string, b: string, now: int) returns (ok: bool)
      requires a != b && r !in rows
      modifies this
      ensures ok <==> !Taken(old(rows), Key(a, b))
      ensures rows == if ok then Create(old(rows), r, a, b, now) else old(rows)
    {
      if Taken(rows, Key(a, b)) {
        return false;
      }
      rows := rows[r := Row(true, Some(Key(a, b)), {a, b}, now)];
      return true;
    }
  }

  // ---------- Interleaved calls ----------

  /** One database step of a call; a step whose query result is not what the rows hold does not happen. */
  function Stepped(rows: Rows, call: Call, found: Option<RowId>, newId: RowId, now: int): (Rows, Stage)
    requires call.a != call.b
  {
    var a, b, k := call.a, call.b, Key(call.a, call.b);
    match call.stage
    case Looking =>
      if !FindsKey(rows, k, found) then (rows, Looking)
      else if found.None? then (rows, Searching)
      else if |rows[found.value].members| == 2 then (rows, Returned(found.value))
      else (rows, Repairing(found.value))
    case Repairing(r) => if r in rows then (rows, Restoring(r, rows[r].members)) else (rows, Failed)
    case Restoring(r, have) =>
      if InsertCommits(rows, r, have, a, b) then (Fill(rows, r, have, a, b), Returned(r)) else (rows, Failed)
    case Searching =>
      if !FindsLegacy(rows, a, b, found) then (rows, Searching)
      else if found.None? then (rows, Creating)
      else (rows, Adopting(found.value, rows[found.value].members))
    case Adopting(r, have) =>
      if AdoptCommits(rows, r, have, a, b) then (Adopt(rows, r, have, a, b), Returned(r)) else (rows, Losing)
    case Creating =>
      if newId in rows then (rows, Creating)
      else if Taken(rows, k) then (rows, Losing)
      else (Create(rows, newId, a, b, now), Returned(newId))
    case Losing =>
      if !FindsKey(rows, k, found) then (rows, Losing)
      else if found.Some? then (rows, Returned(found.value)) else (rows, Failed)
    case Returned(r) => (rows, Returned(r))
    case Failed => (rows, Failed)
  }

  function Next(w: World, s: Step): World {
    match s
    case Open(t, a, b) => if t in w.calls || !Pair(a, b) then w else w.(calls := w.calls[t := Call(a, b, Looking)])
    case Advance(t, found, newId, now) =>
      if t !in w.calls || w.calls[t].a == w.calls[t].b then w
      else
        var (rows, stage) := Stepped(w.rows, w.calls[t], found, newId, now);
        World(rows, w.calls[t := w.calls[t].(stage := stage)])
  }

  function Run(w: World, steps: seq<Step>): World
    decreases |steps|
  {
    if steps == [] then w else Run(Next(w, steps[0]), steps[1..])
  }

  // ---------- The invariant ----------

  ghost predicate KeysUnique(rows: Rows) {
    forall r, s :: r in rows && s in rows && rows[r].key.Some? && rows[r].key == rows[s].key ==> r == s
  }

  /** Every unkeyed DIRECT row already holds two members. */
  ghost predicate NoShells(rows: Rows) {
    forall r :: r in rows && rows[r].direct && rows[r].key.None? ==> 2 <= |rows[r].members|
  }

  ghost predicate CallFine(rows: Rows, call: Call) {
    && Pair(call.a, call.b)
    && match call.stage
       case Adopting(r, have) =>
         r in rows && rows[r].members == have == {call.a, call.b}
         && (rows[r].key.None? || rows[r].key == Some(Key(call.a, call.b)))
       case Repairing(r) => Owns(rows, r, Key(call.a, call.b))
       case Restoring(r, have) => Owns(rows, r, Key(call.a, call.b)) && have <= rows[r].members
       case Losing => Taken(rows, Key(call.a, call.b))
       case Returned(r) => Owns(rows, r, Key(call.a, call.b))
       case _ => true
  }

  ghost predicate Inv(w: World) {
    KeysUnique(w.rows) && NoShells(w.rows) && forall t | t in w.calls :: CallFine(w.rows, w.calls[t])
  }

  lemma {:induction false} FullPair(s: set<string>, a: string, b: string)
    requires s <= {a, b} && 2 <= |s|
    ensures s == {a, b}
  {
    if a !in s || b !in s {
      var only := if a in s then a else b;
      assert s <= {only};
      SubsetSize(s, {only});
    }
  }

  /** What a step may do to the rows: stamp a free row, insert a row, add a pair to its own keyed row. */
  ghost predicate Evolves(a: Rows, b: Rows, key: string, pair: set<string>) {
    && (forall r :: r in a ==> r in b && b[r].direct == a[r].direct)
    && (forall r :: r in a && b[r] != a[r] ==>
          (a[r].key.None? || a[r].key == Some(key)) && b[r].key == Some(key) && b[r].members == a[r].members + pair)
    && (forall r :: r in b && r !in a ==> b[r].key == Some(key) && b[r].members == pair)
  }

  lemma {:induction false} OthersFine(a: Rows, b: Rows, key: string, x: string, y: string, call: Call)
    requires Pair(x, y) && key == Key(x, y) && Evolves(a, b, key, {x, y}) && CallFine(a, call)
    requires call.stage.Adopting? && a[call.stage.row].key.None? && b[call.stage.row] != a[call.stage.row] ==>
               a[call.stage.row].members == {x, y}
    ensures CallFine(b, call)
  {
    InjectiveOnPairs(x, y, call.a, call.b);
    if call.stage.Losing? {
      var r :| r in a && a[r].key == Some(Key(call.a, call.b));
      assert r in b && b[r].key == a[r].key;
    }
  }

  lemma {:induction false} SteppedFine(rows: Rows, call: Call, found: Option<RowId>, newId: RowId, now: int,
      after: Rows, stage: Stage)
    requires KeysUnique(rows) && NoShells(rows) && CallFine(rows, call)
    requires (after, stage) == Stepped(rows, call, found, newId, now)
    ensures KeysUnique(after) && NoShells(after) && CallFine(after, call.(stage := stage))
    ensures Evolves(rows, after, Key(call.a, call.b), {call.a, call.b})
    ensures forall r :: r in rows && after[r] != rows[r] && rows[r].key.None? ==> rows[r].members == {call.a, call.b}
  {
    match call.stage
    case Searching =>
      if stage.Adopting? { FullPair(rows[stage.row].members, call.a, call.b); }
    case Adopting(r, have) => AdoptFine(rows, call, r, have, after, stage);
    case Creating => CreateFine(rows, call, newId, now, after, stage);
    case Restoring(r, have) => RestoreFine(rows, call, r, have, after, stage);
    case _ =>
  }

  lemma RestoreFine(rows: Rows, call: Call, r: RowId, have: set<string>, after: Rows, stage: Stage)
    requires KeysUnique(rows) && NoShells(rows) && CallFine(rows, call) && call.stage == Restoring(r, have)
    requires (after, stage) == Stepped(rows, call, None, 0, 0)
    ensures KeysUnique(after) && NoShells(after) && CallFine(after, call.(stage := stage))
    ensures Evolves(rows, after, Key(call.a, call.b), {call.a, call.b})
    ensures forall s :: s in rows && after[s] != rows[s] ==> rows[s].key.Some?
  {
  }

  lemma AdoptFine(rows: Rows, call: Call, r: RowId, have: set<string>, after: Rows, stage: Stage)
    requires KeysUnique(rows) && NoShells(rows) && CallFine(rows, call) && call.stage == Adopting(r, have)
    requires (after, stage) == Stepped(rows, call, None, 0, 0)
    ensures KeysUnique(after) && NoShells(after) && CallFine(after, call.(stage := stage))
    ensures Evolves(rows, after, Key(call.a, call.b), {call.a, call.b})
    ensures forall s :: s in rows && after[s] != rows[s] ==> rows[s].members == {call.a, call.b}
  {
  }

  lemma CreateFine(rows: Rows, call: Call, newId: RowId, now: int, after: Rows, stage: Stage)
    requires KeysUnique(rows) && NoShells(rows) && CallFine(rows, call) && call.stage.Creating?
    requires (after, stage) == Stepped(rows, call, None, newId, now)
    ensures KeysUnique(after) && NoShells(after) && CallFine(after, call.(stage := stage))
    ensures Evolves(rows, after, Key(call.a, call.b), {call.a, call.b})
    ensures forall s :: s in rows ==> after[s] == rows[s]
  {
  }

  lemma {:induction false} NextKeeps(w: World, s: Step)
    requires Inv(w)
    ensures Inv(Next(w, s))
  {
    if s.Advance? && s.call in w.calls {
      var call := w.calls[s.call];
      assert CallFine(w.rows, call);
      var (rows, stage) := Stepped(w.rows, call, s.found, s.newId, s.now);
      SteppedFine(w.rows, call, s.found, s.newId, s.now, rows, stage);
      forall t | t in w.calls && t != s.call ensures CallFine(rows, w.calls[t]) {
        OthersFine(w.rows, rows, Key(call.a, call.b), call.a, call.b, w.calls[t]);
      }
    }
  }

  lemma {:induction false} RunKeeps(w: World, steps: seq<Step>)
    requires Inv(w)
    ensures Inv(Run(w, steps))
    decreases |steps|
  {
    if steps != [] {
      NextKeeps(w, steps[0]);
      RunKeeps(Next(w, steps[0]), steps[1..]);
    }
  }

  // ---------- No call fails ----------

  /** Every keyed row counts as complete for its pair: the fast path returns it, or the repair finds nothing missing. */
  ghost predicate NoStumps(rows: Rows) {
    forall r, a, b :: Pair(a, b) && Owns(rows, r, Key(a, b)) ==> |rows[r].members| == 2 || {a, b} <= rows[r].members
  }

  ghost predicate CallSmooth(rows: Rows, call: Call) {
    match call.stage
    case Repairing(r) => r in rows && {call.a, call.b} <= rows[r].members
    case Restoring(r, have) => {call.a, call.b} <= have
    case Failed => false
    case _ => true
  }

  ghost predicate SmoothInv(w: World) {
    Inv(w) && NoStumps(w.rows) && forall t | t in w.calls :: CallSmooth(w.rows, w.calls[t])
  }

  lemma {:induction false} SteppedSmooth(rows: Rows, call: Call, found: Option<RowId>, newId: RowId, now: int,
      after: Rows, stage: Stage)
    requires CallFine(rows, call) && NoStumps(rows) && CallSmooth(rows, call)
    requires (after, stage) == Stepped(rows, call, found, newId, now)
    ensures CallSmooth(after, call.(stage := stage))
  {
    if call.stage.Looking? && stage.Repairing? {
      assert Owns(rows, stage.row, Key(call.a, call.b));
    }
  }

  lemma {:induction false} StumpsStayOut(a: Rows, b: Rows, x: string, y: string)
    requires Pair(x, y) && NoStumps(a) && Evolves(a, b, Key(x, y), {x, y})
    ensures NoStumps(b)
  {
    forall r, c, d | Pair(c, d) && Owns(b, r, Key(c, d)) ensures |b[r].members| == 2 || {c, d} <= b[r].members {
      InjectiveOnPairs(x, y, c, d);
      if r in a && b[r] == a[r] { assert Owns(a, r, Key(c, d)); }
    }
  }

  lemma {:induction false} NextSmooth(w: World, s: Step)
    requires SmoothInv(w)
    ensures SmoothInv(Next(w, s))
  {
    NextKeeps(w, s);
    if s.Advance? && s.call in w.calls {
      var call := w.calls[s.call];
      assert CallFine(w.rows, call);
      var (rows, stage) := Stepped(w.rows, call, s.found, s.newId, s.now);
      SteppedFine(w.rows, call, s.found, s.newId, s.now, rows, stage);
      SteppedSmooth(w.rows, call, s.found, s.newId, s.now, rows, stage);
      StumpsStayOut(w.rows, rows, call.a, call.b);
    }
  }

  lemma {:induction false} RunSmooth(w: World, steps: seq<Step>)
    requires SmoothInv(w)
    ensures SmoothInv(Run(w, steps))
    decreases |steps|
  {
    if steps != [] {
      NextSmooth(w, steps[0]);
      RunSmooth(Next(w, steps[0]), steps[1..]);
    }
  }

  // ---------- What holds without shells and stumps ----------

  /** Two finished calls got the same row exactly when they asked for the same pair. */
  ghost predicate OneRowPerPair(w: World) {
    forall t, u | t in w.calls && u in w.calls && w.calls[t].stage.Returned? && w.calls[u].stage.Returned? ::
      w.calls[t].stage.row == w.calls[u].stage.row
      <==> {w.calls[t].a, w.calls[t].b} == {w.calls[u].a, w.calls[u].b}
  }

  ghost predicate NoneFails(w: World) {
    forall t | t in w.calls :: !w.calls[t].stage.Failed?
  }

  lemma {:induction false} InvGivesOneRow(w: World)
    requires Inv(w)
    ensures OneRowPerPair(w)
  {
    forall t, u | t in w.calls && u in w.calls && w.calls[t].stage.Returned? && w.calls[u].stage.Returned?
      ensures w.calls[t].stage.row == w.calls[u].stage.row
              <==> {w.calls[t].a, w.calls[t].b} == {w.calls[u].a, w.calls[u].b}
    {
      var x, y := w.calls[t], w.calls[u];
      assert CallFine(w.rows, x) && CallFine(w.rows, y);
      InjectiveOnPairs(x.a, x.b, y.a, y.b);
    }
  }

  /** Without shells every interleaving of every set of calls gives one row per pair, keyed once. */
  lemma {:induction false} SafeWithoutShells(rows: Rows, steps: seq<Step>)
    requires KeysUnique(rows) && NoShells(rows)
    ensures var w := Run(World(rows, map[]), steps);
      OneRowPerPair(w) && KeysUnique(w.rows) && (NoStumps(rows) ==> NoneFails(w))
  {
    RunKeeps(World(rows, map[]), steps);
    InvGivesOneRow(Run(World(rows, map[]), steps));
    if NoStumps(rows) { RunSmooth(World(rows, map[]), steps); }
  }

  // ---------- Membership of the returned row ----------

  /** Keyed rows hold no stranger to their pair. */
  ghost predicate Proper(rows: Rows) {
    forall r, a, b :: Pair(a, b) && Owns(rows, r, Key(a, b)) ==> rows[r].members <= {a, b}
  }

  ghost predicate Complete(rows: Rows, a: string, b: string)
    requires a != b
  {
    forall r :: Owns(rows, r, Key(a, b)) ==> rows[r].members == {a, b}
  }

  /**
   A call that missed the key knows that whoever stamped it since did so with both members; so
   does one that repaired.
   */
  ghost predicate CallComplete(rows: Rows, call: Call) {
    && Pair(call.a, call.b)
    && (call.stage.Looking? || call.stage.Repairing? || call.stage.Restoring? || call.stage.Failed?
        || Complete(rows, call.a, call.b))
  }

  ghost predicate MembershipInv(w: World) {
    Inv(w) && Proper(w.rows) && forall t | t in w.calls :: CallComplete(w.rows, w.calls[t])
  }

  lemma {:induction false} SteppedMembers(rows: Rows, call: Call, found: Option<RowId>, newId: RowId, now: int,
      after: Rows, stage: Stage)
    requires KeysUnique(rows) && NoShells(rows) && CallFine(rows, call) && Proper(rows) && CallComplete(rows, call)
    requires (after, stage) == Stepped(rows, call, found, newId, now)
    ensures forall r :: r in after && (r in rows ==> after[r] != rows[r]) ==> after[r].members == {call.a, call.b}
    ensures CallComplete(after, call.(stage := stage))
  {
    match call.stage
    case Looking =>
      if stage.Returned? { FullPair(rows[stage.row].members, call.a, call.b); }
    case Adopting(r, have) => AdoptMembers(rows, call, r, have, after, stage);
    case Creating => CreateMembers(rows, call, newId, now, after, stage);
    case _ =>
  }

  lemma AdoptMembers(rows: Rows, call: Call, r: RowId, have: set<string>, after: Rows, stage: Stage)
    requires CallFine(rows, call) && CallComplete(rows, call) && call.stage == Adopting(r, have)
    requires (after, stage) == Stepped(rows, call, None, 0, 0)
    ensures forall s :: s in rows ==> s in after && (after[s] == rows[s] || after[s].members == {call.a, call.b})
    ensures after.Keys == rows.Keys && CallComplete(after, call.(stage := stage))
  {
  }

  lemma CreateMembers(rows: Rows, call: Call, newId: RowId, now: int, after: Rows, stage: Stage)
    requires CallFine(rows, call) && CallComplete(rows, call) && call.stage.Creating?
    requires (after, stage) == Stepped(rows, call, None, newId, now)
    ensures forall r :: r in after ==> (r in rows && after[r] == rows[r]) || after[r].members == {call.a, call.b}
    ensures CallComplete(after, call.(stage := stage))
  {
  }

  lemma {:induction false} ChangedStayProper(a: Rows, b: Rows, x: string, y: string)
    requires Pair(x, y) && Proper(a) && Evolves(a, b, Key(x, y), {x, y})
    requires forall r :: r in b && (r in a ==> b[r] != a[r]) ==> b[r].members == {x, y}
    ensures Proper(b)
    ensures forall c, d :: Pair(c, d) && Complete(a, c, d) ==> Complete(b, c, d)
  {
    forall r, c, d | Pair(c, d) && Owns(b, r, Key(c, d))
      ensures b[r].members <= {c, d} && (Complete(a, c, d) ==> b[r].members == {c, d})
    {
      InjectiveOnPairs(x, y, c, d);
      if r in a && b[r] == a[r] { assert Owns(a, r, Key(c, d)); }
    }
  }

  lemma {:induction false} MembershipKept(w: World, s: Step)
    requires MembershipInv(w)
    ensures MembershipInv(Next(w, s))
  {
    NextKeeps(w, s);
    if s.Advance? && s.call in w.calls {
      var call := w.calls[s.call];
      assert CallFine(w.rows, call);
      var (rows, stage) := Stepped(w.rows, call, s.found, s.newId, s.now);
      SteppedFine(w.rows, call, s.found, s.newId, s.now, rows, stage);
      SteppedMembers(w.rows, call, s.found, s.newId, s.now, rows, stage);
      ChangedStayProper(w.rows, rows, call.a, call.b);
    }
  }

  lemma {:induction false} MembershipRun(w: World, steps: seq<Step>)
    requires MembershipInv(w)
    ensures MembershipInv(Run(w, steps))
    decreases |steps|
  {
    if steps != [] {
      MembershipKept(w, steps[0]);
      MembershipRun(Next(w, steps[0]), steps[1..]);
    }
  }

  /**
   Whether reused, repaired, adopted, created or won by another call, the row a call returns
   holds exactly the two members of its pair.
   */
  lemma {:induction false} ReturnedRowIsComplete(rows: Rows, steps: seq<Step>, t: nat)
    requires KeysUnique(rows) && NoShells(rows) && Proper(rows)
    ensures var w := Run(World(rows, map[]), steps);
      t in w.calls && w.calls[t].stage.Returned? ==>
        w.calls[t].stage.row in w.rows && w.rows[w.calls[t].stage.row].members == {w.calls[t].a, w.calls[t].b}
  {
    MembershipRun(World(rows, map[]), steps);
    var w := Run(World(rows, map[]), steps);
    if t in w.calls { assert CallFine(w.rows, w.calls[t]) && CallComplete(w.rows, w.calls[t]); }
  }

  // ---------- Shells are shared ----------

  /** Some run leads from w to v. */
  ghost predicate Reaches(w: World, v: World) {
    exists steps :: Run(w, steps) == v
  }

  lemma {:induction false} RunLast(w: World, steps: seq<Step>, s: Step)
    ensures Run(w, steps + [s]) == Next(Run(w, steps), s)
    decreases |steps|
  {
    if steps == [] {
      assert [] + [s] == [s] && [s][1..] == [];
    } else {
      assert (steps + [s])[1..] == steps[1..] + [s];
      RunLast(Next(w, steps[0]), steps[1..], s);
    }
  }

  lemma {:induction false} ReachesNext(w: World, v: World, s: Step)
    requires Reaches(w, v)
    ensures Reaches(w, Next(v, s))
  {
    var steps :| Run(w, steps) == v;
    RunLast(w, steps, s);
  }

  /** Two calls at the given stages over unchanged rows. */
  function TwoCalls(rows: Rows, a: string, b: string, x: Stage, c: string, d: string, y: Stage): World {
    World(rows, map[0 := Call(a, b, x), 1 := Call(c, d, y)])
  }

  lemma {:induction false} OpenBoth(rows: Rows, a: string, b: string, c: string, d: string)
    requires Pair(a, b) && Pair(c, d)
    ensures Reaches(World(rows, map[]), TwoCalls(rows, a, b, Looking, c, d, Looking))
  {
    var start := World(rows, map[]);
    assert Run(start, []) == start;
    ReachesNext(start, start, Open(0, a, b));
    ReachesNext(start, Next(start, Open(0, a, b)), Open(1, c, d));
    assert Next(Next(start, Open(0, a, b)), Open(1, c, d)) == TwoCalls(rows, a, b, Looking, c, d, Looking);
  }

  /** Both take the same reading step. */
  lemma {:induction false} AdvanceBoth(rows: Rows, a: string, b: string, x: Stage, c: string, d: string, y: Stage,
      found: Option<RowId>, p: Stage, q: Stage)
    requires a != b && c != d && Reaches(World(rows, map[]), TwoCalls(rows, a, b, x, c, d, y))
    requires Stepped(rows, Call(a, b, x), found, 0, 0) == (rows, p)
    requires Stepped(rows, Call(c, d, y), found, 0, 0) == (rows, q)
    ensures Reaches(World(rows, map[]), TwoCalls(rows, a, b, p, c, d, q))
  {
    var start, w := World(rows, map[]), TwoCalls(rows, a, b, x, c, d, y);
    ReachesNext(start, w, Advance(0, found, 0, 0));
    assert Next(w, Advance(0, found, 0, 0)) == TwoCalls(rows, a, b, p, c, d, y);
    ReachesNext(start, TwoCalls(rows, a, b, p, c, d, y), Advance(1, found, 0, 0));
    assert Next(TwoCalls(rows, a, b, p, c, d, y), Advance(1, found, 0, 0)) == TwoCalls(rows, a, b, p, c, d, q);
  }

  /** Two calls for different pairs that both found the same shell before either adopted it. */
  lemma {:induction false} BothAdopting(rows: Rows, r: RowId, a: string, b: string, c: string, d: string)
    requires Pair(a, b) && Pair(c, d) && !Taken(rows, Key(a, b)) && !Taken(rows, Key(c, d))
    requires FindsLegacy(rows, a, b, Some(r)) && FindsLegacy(rows, c, d, Some(r))
    ensures var stage := Adopting(r, rows[r].members);
      Reaches(World(rows, map[]), TwoCalls(rows, a, b, stage, c, d, stage))
  {
    OpenBoth(rows, a, b, c, d);
    AdvanceBoth(rows, a, b, Looking, c, d, Looking, None, Searching, Searching);
    var stage := Adopting(r, rows[r].members);
    AdvanceBoth(rows, a, b, Searching, c, d, Searching, Some(r), stage, stage);
  }

  lemma {:induction false} ShellShared(rows: Rows, r: RowId, a: string, b: string, c: string, d: string)
    requires Pair(a, b) && Pair(c, d) && {a, b} != {c, d}
    requires !Taken(rows, Key(a, b)) && !Taken(rows, Key(c, d))
    requires FindsLegacy(rows, a, b, Some(r)) && FindsLegacy(rows, c, d, Some(r))
    requires ({c, d} - rows[r].members) * {a, b} == {}
    ensures exists w :: Reaches(World(rows, map[]), w) && !OneRowPerPair(w)
  {
    var start := World(rows, map[]);
    BothAdopting(rows, r, a, b, c, d);
    var w := TwoCalls(rows, a, b, Adopting(r, rows[r].members), c, d, Adopting(r, rows[r].members));
    ReachesNext(start, w, Advance(0, None, 0, 0));
    var v := Next(w, Advance(0, None, 0, 0));
    assert v.rows == Adopt(rows, r, rows[r].members, a, b) && v.calls[0].stage == Returned(r);
    InjectiveOnPairs(a, b, c, d);
    ReachesNext(start, v, Advance(1, None, 0, 0));
    var u := Next(v, Advance(1, None, 0, 0));
    SecondAdopts(rows, r, a, b, c, d);
    assert u.calls[0].stage == u.calls[1].stage == Returned(r);
    assert !OneRowPerPair(u);
  }

  lemma SecondAdopts(rows: Rows, r: RowId, a: string, b: string, c: string, d: string)
    requires a != b && c != d && r in rows && !Taken(rows, Key(c, d))
    requires ({c, d} - rows[r].members) * {a, b} == {}
    ensures AdoptCommits(Adopt(rows, r, rows[r].members, a, b), r, rows[r].members, c, d)
  {
  }

  // ---------- A keyed row short of a member fails a call ----------

  /** Two calls for one pair both reach the repair of a keyed row; the slower insert violates the member key. */
  lemma {:induction false} StumpFails(rows: Rows, r: RowId, a: string, b: string)
    requires Pair(a, b) && Owns(rows, r, Key(a, b)) && |rows[r].members| != 2 && !({a, b} <= rows[r].members)
    ensures exists w :: Reaches(World(rows, map[]), w) && !NoneFails(w)
  {
    var start := World(rows, map[]);
    var have := rows[r].members;
    BothRestoring(rows, r, a, b);
    var w := TwoCalls(rows, a, b, Restoring(r, have), a, b, Restoring(r, have));
    ReachesNext(start, w, Advance(0, None, 0, 0));
    var v := Next(w, Advance(0, None, 0, 0));
    assert v.rows == Fill(rows, r, have, a, b) && v.calls[1] == w.calls[1];
    ReachesNext(start, v, Advance(1, None, 0, 0));
    var u := Next(v, Advance(1, None, 0, 0));
    var missing := if a !in have then a else b;
    assert missing in ({a, b} - have) * v.rows[r].members;
    assert u.calls[1].stage == Failed;
  }

  /** Two calls for a pair that both read the short membership before either inserted. */
  lemma {:induction false} BothRestoring(rows: Rows, r: RowId, a: string, b: string)
    requires Pair(a, b) && Owns(rows, r, Key(a, b)) && |rows[r].members| != 2
    ensures var stage := Restoring(r, rows[r].members);
      Reaches(World(rows, map[]), TwoCalls(rows, a, b, stage, a, b, stage))
  {
    OpenBoth(rows, a, b, a, b);
    AdvanceBoth(rows, a, b, Looking, a, b, Looking, Some(r), Repairing(r), Repairing(r));
    var stage := Restoring(r, rows[r].members);
    AdvanceBoth(rows, a, b, Repairing(r), a, b, Repairing(r), None, stage, stage);
  }

  // ---------- Fresh users ----------

  function Used(rows: Rows): set<string> {
    (set r, u | r in rows && u in rows[r].members :: u) + (set r | r in rows && rows[r].key.Some? :: rows[r].key.value)
  }

  lemma {:induction false} LengthBound(s: set<string>) returns (n: nat)
    ensures forall x :: x in s ==> |x| <= n
    decreases s
  {
    if s == {} {
      n := 0;
    } else {
      var x :| x in s;
      var m := LengthBound(s - {x});
      n := if |x| > m then |x| else m;
      forall y | y in s ensures |y| <= n { if y != x { assert y in s - {x}; } }
    }
  }

  function Long(n: nat): string {
    seq(n, _ => 'x')
  }

  lemma UsedBound(rows: Rows, n: nat, r: RowId)
    requires (forall x :: x in Used(rows) ==> |x| <= n) && r in rows
    ensures rows[r].key.Some? ==> |rows[r].key.value| <= n
    ensures forall u :: u in rows[r].members ==> |u| <= n
  {
  }

  /** Ids longer than anything stored belong to no row, and neither do their keys. */
  lemma {:induction false} LongIsFresh(rows: Rows, n: nat, k: nat, a: string)
    requires (forall x :: x in Used(rows) ==> |x| <= n) && n < k && a != Long(k)
    ensures ColonFree(Long(k)) && !Taken(rows, Key(a, Long(k)))
    ensures forall r :: r in rows ==> Long(k) !in rows[r].members
  {
    assert |Long(k)| == k && |Key(a, Long(k))| > n;
    forall r | r in rows ensures Long(k) !in rows[r].members && rows[r].key != Some(Key(a, Long(k))) {
      UsedBound(rows, n, r);
    }
  }

  /** Among the rows a pair could adopt there is an oldest. */
  lemma {:induction false} OldestAdoptable(rows: Rows, ids: set<RowId>, a: string, b: string,
      r: RowId) returns (o: RowId)
    requires r in ids && Adoptable(rows, r, a, b)
    ensures o in ids && Adoptable(rows, o, a, b)
    ensures forall s :: s in ids && Adoptable(rows, s, a, b) ==> rows[o].createdAt <= rows[s].createdAt
    decreases ids
  {
    if s :| s in ids && s != r && Adoptable(rows, s, a, b) {
      if rows[s].createdAt < rows[r].createdAt {
        o := OldestAdoptable(rows, ids - {r}, a, b, s);
        assert forall t :: t in ids ==> t == r || t in ids - {r};
      } else {
        o := OldestAdoptable(rows, ids - {s}, a, b, r);
        assert forall t :: t in ids ==> t == s || t in ids - {s};
      }
    } else {
      o := r;
    }
  }

  /** Legacy members are ordinary ids. */
  predicate OrdinaryMembers(rows: Rows) {
    forall r, u :: r in rows && u in rows[r].members ==> ColonFree(u)
  }

  /** A shell lets two pairs in: its one member with two strangers, or two pairs of strangers. */
  lemma {:induction false} ShellBreaks(rows: Rows, shell: RowId)
    requires OrdinaryMembers(rows) && shell in rows && rows[shell].direct && rows[shell].key.None?
    requires |rows[shell].members| < 2
    ensures exists w :: Reaches(World(rows, map[]), w) && !OneRowPerPair(w)
  {
    if empty :| empty in rows && rows[empty].direct && rows[empty].key.None? && rows[empty].members == {} {
      EmptyShellBreaks(rows, empty);
    } else {
      LonelyShellBreaks(rows, shell);
    }
  }

  lemma {:induction false} EmptyShellBreaks(rows: Rows, shell: RowId)
    requires shell in rows && rows[shell].direct && rows[shell].key.None? && rows[shell].members == {}
    ensures exists w :: Reaches(World(rows, map[]), w) && !OneRowPerPair(w)
  {
    var n := LengthBound(Used(rows));
    var p, q, s, t := Long(n + 1), Long(n + 2), Long(n + 3), Long(n + 4);
    assert |p| < |q| < |s| < |t|;
    LongIsFresh(rows, n, n + 1, q); LongIsFresh(rows, n, n + 2, p);
    LongIsFresh(rows, n, n + 3, t); LongIsFresh(rows, n, n + 4, s);
    ShellBreaksWith(rows, shell, p, q, s, t, {});
  }

  lemma {:induction false} LonelyShellBreaks(rows: Rows, shell: RowId)
    requires OrdinaryMembers(rows) && shell in rows && rows[shell].direct && rows[shell].key.None?
    requires |rows[shell].members| == 1
    requires forall r :: r in rows && rows[r].direct && rows[r].key.None? ==> rows[r].members != {}
    ensures exists w :: Reaches(World(rows, map[]), w) && !OneRowPerPair(w)
  {
    var n := LengthBound(Used(rows));
    var p, q := Long(n + 1), Long(n + 2);
    assert |p| < |q|;
    var a :| a in rows[shell].members;
    OneMember(rows[shell].members, a);
    UsedBound(rows, n, shell);
    assert |a| <= n;
    LongIsFresh(rows, n, n + 1, a); LongIsFresh(rows, n, n + 2, a);
    ShellBreaksWith(rows, shell, a, p, a, q, {a});
  }

  lemma {:induction false} OneMember(s: set<string>, a: string)
    requires a in s && |s| < 2
    ensures s == {a}
  {
    if x :| x in s && x != a { SubsetSize({a, x}, s); }
  }

  lemma WithinBoth(members: set<string>, p: set<string>, q: set<string>, common: set<string>)
    requires p * q == common && members * (p + q) <= common
    ensures members <= p <==> members <= common
    ensures members <= q <==> members <= common
  {
  }

  lemma {:induction false} ShellBreaksWith(rows: Rows, shell: RowId, a: string, b: string, c: string, d: string,
      common: set<string>)
    requires Pair(a, b) && Pair(c, d) && {a, b} * {c, d} == common && {a, b} != {c, d}
    requires shell in rows && rows[shell].direct && rows[shell].key.None? && rows[shell].members == common
    requires !Taken(rows, Key(a, b)) && !Taken(rows, Key(c, d))
    requires forall r :: r in rows ==> rows[r].members * ({a, b} + {c, d}) <= common
    requires forall r :: r in rows && rows[r].direct && rows[r].key.None? && rows[r].members <= common ==>
      rows[r].members == common
    ensures exists w :: Reaches(World(rows, map[]), w) && !OneRowPerPair(w)
  {
    forall r | r in rows ensures Adoptable(rows, r, a, b) <==> Adoptable(rows, r, c, d) {
      WithinBoth(rows[r].members, {a, b}, {c, d}, common);
    }
    var o := OldestAdoptable(rows, rows.Keys, a, b, shell);
    WithinBoth(rows[o].members, {a, b}, {c, d}, common);
    ShellShared(rows, o, a, b, c, d);
  }

  /**
   One DIRECT row per pair, exactly. Over rows with unique keys and ordinary ids, two calls that
   return get the same row if and only if they asked for the same pair, in every run of
   concurrent createConversation calls, if and only if every unkeyed DIRECT row already holds
   two members.
   */
  lemma {:induction false} OneRowExactly(rows: Rows)
    requires KeysUnique(rows) && OrdinaryMembers(rows)
    ensures (forall w :: Reaches(World(rows, map[]), w) ==> OneRowPerPair(w)) <==> NoShells(rows)
  {
    if NoShells(rows) {
      forall w | Reaches(World(rows, map[]), w) ensures OneRowPerPair(w) {
        var steps :| Run(World(rows, map[]), steps) == w;
        SafeWithoutShells(rows, steps);
      }
    } else {
      var shell :| shell in rows && rows[shell].direct && rows[shell].key.None? && |rows[shell].members| < 2;
      ShellBreaks(rows, shell);
    }
  }

  /**
   And no call fails either, in every run, if and only if in addition no keyed row makes the
   fast path repair it: the repair inserts what it read as missing and a concurrent repair of
   the same row makes that insert violate the member key, which nothing catches.
   */
  lemma {:induction false} OneRowAndNoneFailsExactly(rows: Rows)
    requires KeysUnique(rows) && OrdinaryMembers(rows)
    ensures (forall w :: Reaches(World(rows, map[]), w) ==> OneRowPerPair(w) && NoneFails(w))
      <==> NoShells(rows) && NoStumps(rows)
  {
    OneRowExactly(rows);
    if NoShells(rows) && NoStumps(rows) {
      forall w | Reaches(World(rows, map[]), w) ensures NoneFails(w) {
        var steps :| Run(World(rows, map[]), steps) == w;
        SafeWithoutShells(rows, steps);
      }
    } else if NoShells(rows) {
      var r, a, b :| Pair(a, b) && Owns(rows, r, Key(a, b)) && |rows[r].members| != 2 && !({a, b} <= rows[r].members);
      StumpFails(rows, r, a, b);
    }
  }
}
