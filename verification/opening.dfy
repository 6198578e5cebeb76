/**
 What one call gets: alone, in each of the ways it can go; and among any others, the row the pair
 already had if it had one, a new one if it had none.
 */
module Opening {
  import opened Domain
  import opened PairKey
  import opened Direct

  // ---------- A call on its own ----------

  /** The steps of one undisturbed call: the key looked up, the legacy rows searched, one row written. */
  function Undisturbed(a: string, b: string, keyed: Option<RowId>, legacy: Option<RowId>, newId: RowId,
      now: int): seq<Step> {
    [Open(0, a, b), Advance(0, keyed, newId, now), Advance(0, legacy, newId, now), Advance(0, None, newId, now)]
  }

  lemma {:induction false} RunFour(w: World, a: Step, b: Step, c: Step, d: Step)
    ensures Run(w, [a, b, c, d]) == Next(Next(Next(Next(w, a), b), c), d)
  {
    RunLast(w, [a, b, c], d);
    RunLast(w, [a, b], c);
    RunLast(w, [a], b);
    RunLast(w, [], a);
    assert [a, b, c, d] == [a, b, c] + [d] && [a, b, c] == [a, b] + [c];
    assert [a, b] == [a] + [b] && [a] == [] + [a];
  }

  /**
   An undisturbed call returns the row that has the pair's key, with a missing member put in; else
   the oldest unkeyed DIRECT row without strangers, stamped with the key and both members; else a new
   row with the key and both members. No other row changes.
   */
  lemma {:induction false} AloneExactly(rows: Rows, a: string, b: string, keyed: Option<RowId>, legacy: Option<RowId>,
      newId: RowId, now: int)
    requires Pair(a, b) && newId !in rows
    requires if keyed.Some? then keyed.value in rows && rows[keyed.value].key == Some(Key(a, b))
             else forall r :: r in rows ==> rows[r].key != Some(Key(a, b))
    requires var free := set r | r in rows && rows[r].direct && rows[r].key.None? && rows[r].members <= {a, b};
      if legacy.Some?
      then legacy.value in free && forall r :: r in free ==> rows[legacy.value].createdAt <= rows[r].createdAt
      else free == {}
    ensures var w := Run(World(rows, map[]), Undisturbed(a, b, keyed, legacy, newId, now));
      && 0 in w.calls && w.calls[0].stage.Returned?
      && var r := w.calls[0].stage.row;
      if keyed.Some? then
        r == keyed.value
        && w.rows == if |rows[r].members| == 2 then rows
                     else rows[r := rows[r].(members := rows[r].members + {a, b})]
      else if legacy.Some? then
        r == legacy.value && w.rows == rows[r := Row(true, Some(Key(a, b)), {a, b}, rows[r].createdAt)]
      else r == newId && w.rows == rows[newId := Row(true, Some(Key(a, b)), {a, b}, now)]
  {
    var steps := Undisturbed(a, b, keyed, legacy, newId, now);
    RunFour(World(rows, map[]), steps[0], steps[1], steps[2], steps[3]);
    var start := Next(World(rows, map[]), steps[0]);
    assert start == World(rows, map[0 := Call(a, b, Looking)]);
    var looked := Next(start, steps[1]);
    if keyed.Some? {
      KeyedAlone(rows, a, b, keyed.value, looked, steps[2], steps[3]);
    } else {
      assert looked == World(rows, map[0 := Call(a, b, Searching)]);
      var free := set r | r in rows && rows[r].direct && rows[r].key.None? && rows[r].members <= {a, b};
      assert forall r :: r in free <==> Adoptable(rows, r, a, b);
      UnkeyedAlone(rows, a, b, legacy, looked, newId, now);
    }
  }

  lemma {:induction false} RestoringAlone(rows: Rows, a: string, b: string, r: RowId, t: Step)
    requires a != b && r in rows && t.Advance? && t.call == 0
    ensures var have := rows[r].members; var w := Next(World(rows, map[0 := Call(a, b, Restoring(r, have))]), t);
      && 0 in w.calls && w.calls[0].stage == Returned(r)
      && w.rows == rows[r := rows[r].(members := have + {a, b})]
  {
    var have := rows[r].members;
    assert ({a, b} - have) * have == {} && have + ({a, b} - have) == have + {a, b};
    assert Stepped(rows, Call(a, b, Restoring(r, have)), t.found, t.newId, t.now)
      == (Fill(rows, r, have, a, b), Returned(r));
  }

  lemma {:induction false} KeyedAlone(rows: Rows, a: string, b: string, r: RowId, looked: World, s: Step, t: Step)
    requires Pair(a, b) && r in rows && s.Advance? && t.Advance? && s.call == t.call == 0
    requires looked == World(rows, map[0 := Call(a, b, if |rows[r].members| == 2 then Returned(r) else Repairing(r))])
    ensures var w := Next(Next(looked, s), t);
      && 0 in w.calls && w.calls[0].stage == Returned(r)
      && w.rows == if |rows[r].members| == 2 then rows else rows[r := rows[r].(members := rows[r].members + {a, b})]
  {
    if |rows[r].members| != 2 {
      var have := rows[r].members;
      RestoringAlone(rows, a, b, r, t);
      assert Next(looked, s) == World(rows, map[0 := Call(a, b, Restoring(r, have))]);
    }
  }

  lemma {:induction false} UnkeyedAlone(rows: Rows, a: string, b: string, legacy: Option<RowId>, looked: World,
      newId: RowId, now: int)
    requires Pair(a, b) && newId !in rows && looked == World(rows, map[0 := Call(a, b, Searching)])
    requires forall r :: r in rows ==> rows[r].key != Some(Key(a, b))
    requires FindsLegacy(rows, a, b, legacy)
    ensures var w := Next(Next(looked, Advance(0, legacy, newId, now)), Advance(0, None, newId, now));
      && 0 in w.calls
      && if legacy.Some? then
           w.calls[0].stage == Returned(legacy.value)
           && w.rows
                == rows[legacy.value := Row(true, Some(Key(a, b)), {a, b}, rows[legacy.value].createdAt)]
         else
           w.calls[0].stage == Returned(newId) && w.rows == rows[newId := Row(true, Some(Key(a, b)), {a, b}, now)]
  {
    if legacy.Some? {
      var r, have := legacy.value, rows[legacy.value].members;
      assert Next(looked, Advance(0, legacy, newId, now)).calls[0].stage == Adopting(r, have);
      assert have + ({a, b} - have) == {a, b};
      assert ({a, b} - have) * have == {};
    } else {
      assert Next(looked, Advance(0, legacy, newId, now)).calls[0].stage == Creating;
    }
  }

  // ---------- Among others: a pair keeps the row it had ----------

  /** The row is the pair's: it has its key, or is a complete row from before keys. */
  predicate Theirs(rows: Rows, r: RowId, a: string, b: string)
    requires a != b
  {
    r in rows
    && (rows[r].key == Some(Key(a, b)) || (rows[r].direct && rows[r].key.None? && rows[r].members == {a, b}))
  }

  /** Against the rows a run began with: one still unkeyed is as it was, one with the pair's key was the pair's. */
  ghost predicate Descends(begun: Rows, rows: Rows, a: string, b: string)
    requires a != b
  {
    && (forall r :: r in begun ==>
          && r in rows && rows[r].direct == begun[r].direct
          && (rows[r].key.None? ==> rows[r] == begun[r])
          && (rows[r].key == Some(Key(a, b)) ==> Theirs(begun, r, a, b)))
    && (forall r :: r in rows && r !in begun ==> rows[r].key.Some?)
  }

  /** `r` was the pair's all along; nobody made another, and whoever is about to will find the key taken. */
  ghost predicate Keeps(begun: Rows, w: World, a: string, b: string, r: RowId)
    requires a != b
  {
    && Theirs(begun, r, a, b) && Theirs(w.rows, r, a, b)
    && (forall s :: Owns(w.rows, s, Key(a, b)) ==> s in begun)
    && (forall t | t in w.calls && w.calls[t].stage.Creating? && {w.calls[t].a, w.calls[t].b} == {a, b} ::
          Taken(w.rows, Key(a, b)))
  }

  /** Whatever is about to be adopted is a DIRECT row. */
  ghost predicate Aims(w: World) {
    forall t | t in w.calls && w.calls[t].stage.Adopting? ::
      w.calls[t].stage.row in w.rows && w.rows[w.calls[t].stage.row].direct
  }

  /** One step of one call, as far as a pair's rows go. */
  lemma {:induction false} SteppedDescends(begun: Rows, rows: Rows, call: Call, s: Step, after: Rows, stage: Stage,
      a: string, b: string)
    requires s.Advance? && KeysUnique(rows) && NoShells(rows) && CallFine(rows, call)
    requires call.stage.Adopting? ==> rows[call.stage.row].direct
    requires (after, stage) == Stepped(rows, call, s.found, s.newId, s.now)
    requires Pair(a, b) && Descends(begun, rows, a, b)
    ensures Descends(begun, after, a, b)
  {
    SteppedFine(rows, call, s.found, s.newId, s.now, after, stage);
    InjectiveOnPairs(call.a, call.b, a, b);
    EvolvesDescends(begun, rows, call, s, after, stage, a, b);
  }

  lemma AimsAtDirect(rows: Rows, call: Call, s: Step, after: Rows, stage: Stage)
    requires s.Advance? && CallFine(rows, call)
    requires (after, stage) == Stepped(rows, call, s.found, s.newId, s.now)
    ensures stage.Adopting? ==> stage.row in after && after[stage.row].direct
  {
  }

  lemma {:induction false} EvolvesDescends(begun: Rows, rows: Rows, call: Call, s: Step, after: Rows, stage: Stage,
      a: string, b: string)
    requires s.Advance? && CallFine(rows, call) && (call.stage.Adopting? ==> rows[call.stage.row].direct)
    requires (after, stage) == Stepped(rows, call, s.found, s.newId, s.now)
    requires Evolves(rows, after, Key(call.a, call.b), {call.a, call.b})
    requires forall r :: r in rows && after[r] != rows[r] && rows[r].key.None? ==> rows[r].members == {call.a, call.b}
    requires Pair(a, b) && (Key(call.a, call.b) == Key(a, b) <==> {call.a, call.b} == {a, b})
    requires Descends(begun, rows, a, b)
    ensures Descends(begun, after, a, b)
  {
    forall r | r in begun && after[r].key == Some(Key(a, b)) ensures Theirs(begun, r, a, b) {
      if rows[r].key.None? { AdoptedDirect(rows, call, s, r, after, stage); }
    }
  }

  /** Only what was aimed at is stamped. */
  lemma AdoptedDirect(rows: Rows, call: Call, s: Step, r: RowId, after: Rows, stage: Stage)
    requires s.Advance? && CallFine(rows, call) && r in rows && rows[r].key.None? && r in after && after[r] != rows[r]
    requires (after, stage) == Stepped(rows, call, s.found, s.newId, s.now)
    ensures call.stage.Adopting? && call.stage.row == r
  {
  }

  lemma {:induction false} NextDescends(begun: Rows, w: World, s: Step, a: string, b: string)
    requires Inv(w) && Aims(w) && Pair(a, b) && Descends(begun, w.rows, a, b)
    ensures Aims(Next(w, s)) && Descends(begun, Next(w, s).rows, a, b)
  {
    if s.Advance? && s.call in w.calls {
      var call := w.calls[s.call];
      assert CallFine(w.rows, call);
      var (rows, stage) := Stepped(w.rows, call, s.found, s.newId, s.now);
      SteppedFine(w.rows, call, s.found, s.newId, s.now, rows, stage);
      SteppedDescends(begun, w.rows, call, s, rows, stage, a, b);
      AimsAtDirect(w.rows, call, s, rows, stage);
    }
  }

  /** Only a call about to create inserts a row, and only if its key is free. */
  lemma InsertedByCreate(rows: Rows, call: Call, s: Step, q: RowId, after: Rows, stage: Stage)
    requires s.Advance? && CallFine(rows, call) && q !in rows && q in after
    requires (after, stage) == Stepped(rows, call, s.found, s.newId, s.now)
    ensures call.stage.Creating? && !Taken(rows, Key(call.a, call.b)) && after[q].key == Some(Key(call.a, call.b))
  {
  }

  /** A call of another pair does not touch the pair's row, one of the pair keeps it. */
  lemma {:induction false} SteppedKeeps(rows: Rows, call: Call, s: Step, a: string, b: string, r: RowId, after: Rows,
      stage: Stage)
    requires KeysUnique(rows) && NoShells(rows) && CallFine(rows, call) && Pair(a, b) && Theirs(rows, r, a, b)
    requires s.Advance? && (after, stage) == Stepped(rows, call, s.found, s.newId, s.now)
    ensures Theirs(after, r, a, b) && (Taken(rows, Key(a, b)) ==> Taken(after, Key(a, b)))
  {
    SteppedFine(rows, call, s.found, s.newId, s.now, after, stage);
    InjectiveOnPairs(call.a, call.b, a, b);
    if q :| Owns(rows, q, Key(a, b)) { assert Owns(after, q, Key(a, b)); }
  }

  lemma {:induction false} SteppedMakesNone(rows: Rows, call: Call, s: Step, a: string, b: string, r: RowId,
      after: Rows, stage: Stage)
    requires KeysUnique(rows) && NoShells(rows) && CallFine(rows, call) && Pair(a, b) && Theirs(rows, r, a, b)
    requires s.Advance? && (after, stage) == Stepped(rows, call, s.found, s.newId, s.now)
    requires call.stage.Creating? && {call.a, call.b} == {a, b} ==> Taken(rows, Key(a, b))
    ensures forall q :: Owns(after, q, Key(a, b)) ==> q in rows && (Owns(rows, q, Key(a, b)) || rows[q].key.None?)
    ensures stage.Creating? && {call.a, call.b} == {a, b} ==> Taken(rows, Key(a, b))
  {
    SteppedFine(rows, call, s.found, s.newId, s.now, after, stage);
    InjectiveOnPairs(call.a, call.b, a, b);
    forall q | Owns(after, q, Key(a, b)) ensures q in rows {
      if q !in rows { InsertedByCreate(rows, call, s, q, after, stage); }
    }
    if call.stage.Searching? && stage.Creating? && {call.a, call.b} == {a, b} {
      assert !Adoptable(rows, r, call.a, call.b);
      assert Owns(rows, r, Key(a, b));
    }
  }

  lemma {:induction false} NextKeepsRow(begun: Rows, w: World, s: Step, a: string, b: string, r: RowId)
    requires Inv(w) && Pair(a, b) && Keeps(begun, w, a, b, r) && Descends(begun, w.rows, a, b)
    ensures Keeps(begun, Next(w, s), a, b, r)
  {
    if s.Advance? && s.call in w.calls {
      assert CallFine(w.rows, w.calls[s.call]);
      var (rows, stage) := Stepped(w.rows, w.calls[s.call], s.found, s.newId, s.now);
      SteppedKeeps(w.rows, w.calls[s.call], s, a, b, r, rows, stage);
      SteppedMakesNone(w.rows, w.calls[s.call], s, a, b, r, rows, stage);
    }
  }

  lemma {:induction false} RunDescends(begun: Rows, w: World, steps: seq<Step>, a: string, b: string)
    requires Inv(w) && Aims(w) && Pair(a, b) && Descends(begun, w.rows, a, b)
    ensures Descends(begun, Run(w, steps).rows, a, b)
    ensures forall r :: Keeps(begun, w, a, b, r) ==> Keeps(begun, Run(w, steps), a, b, r)
    decreases |steps|
  {
    if steps != [] {
      NextKeeps(w, steps[0]);
      NextDescends(begun, w, steps[0], a, b);
      RunDescends(begun, Next(w, steps[0]), steps[1..], a, b);
      forall r | Keeps(begun, w, a, b, r) ensures Keeps(begun, Next(w, steps[0]), a, b, r) {
        NextKeepsRow(begun, w, steps[0], a, b, r);
      }
    }
  }

  /**
   A pair keeps the row it had, exactly: in every run without shells a call is returned a row from
   before the run if and only if its pair had one then, keyed or from before keys; and that one was
   the pair's.
   */
  lemma {:induction false} KeptExactly(begun: Rows, steps: seq<Step>, t: nat)
    requires KeysUnique(begun) && NoShells(begun)
    ensures var w := Run(World(begun, map[]), steps);
      t in w.calls && w.calls[t].stage.Returned? ==>
        var a, b, row := w.calls[t].a, w.calls[t].b, w.calls[t].stage.row;
        && a != b
        && (row in begun <==> exists r :: Theirs(begun, r, a, b))
        && (row in begun ==> Theirs(begun, row, a, b))
  {
    var start, w := World(begun, map[]), Run(World(begun, map[]), steps);
    RunKeeps(start, steps);
    if t in w.calls && w.calls[t].stage.Returned? {
      var a, b := w.calls[t].a, w.calls[t].b;
      assert CallFine(w.rows, w.calls[t]);
      RunDescends(begun, start, steps, a, b);
      if r :| Theirs(begun, r, a, b) {
        forall s | Owns(begun, s, Key(a, b)) ensures s in begun {
        }
        assert Keeps(begun, start, a, b, r);
        assert Keeps(begun, w, a, b, r);
      }
    }
  }
}
