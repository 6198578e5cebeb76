/**
 Reaction chips: how both row builders aggregate a message's reactions.
 */
module Chips {
  import opened Domain

  datatype Chip = Chip(emoji: Emoji, count: nat, mine: bool)

  predicate IsMine(r: Reaction, self: Option<UserId>) {
    self.Some? && r.userId == self.value
  }

  function IndexOf(chips: seq<Chip>, emoji: Emoji): (i: nat)
    ensures i <= |chips|
    ensures i < |chips| ==> chips[i].emoji == emoji
    ensures forall j :: 0 <= j < i ==> chips[j].emoji != emoji
  {
    if chips == [] || chips[0].emoji == emoji then 0 else 1 + IndexOf(chips[1..], emoji)
  }

  /** Map.get, count, Map.set on the insertion-ordered chip map. */
  function Count(chips: seq<Chip>, r: Reaction, self: Option<UserId>): seq<Chip> {
    var i := IndexOf(chips, r.emoji);
    if i < |chips| then chips[i := Chip(r.emoji, chips[i].count + 1, chips[i].mine || IsMine(r, self))]
    else chips + [Chip(r.emoji, 1, IsMine(r, self))]
  }

  function Tally(reactions: seq<Reaction>, self: Option<UserId>): seq<Chip>
    decreases |reactions|
  {
    if reactions == [] then []
    else Count(Tally(reactions[..|reactions| - 1], self), reactions[|reactions| - 1], self)
  }

  /** Most reactions first, then emoji. */
  predicate Before(a: Chip, b: Chip) {
    b.count < a.count || (a.count == b.count && a.emoji < b.emoji)
  }

  function InsertChip(chips: seq<Chip>, c: Chip): seq<Chip> {
    if chips == [] then [c]
    else if Before(c, chips[0]) then [c] + chips
    else [chips[0]] + InsertChip(chips[1..], c)
  }

  function SortChips(chips: seq<Chip>): seq<Chip>
    decreases |chips|
  {
    if chips == [] then [] else InsertChip(SortChips(chips[..|chips| - 1]), chips[|chips| - 1])
  }

  function Aggregate(reactions: seq<Reaction>, self: Option<UserId>): seq<Chip> {
    SortChips(Tally(reactions, self))
  }

  /** aggregateChips, with its map filled reaction by reaction. */
  method AggregateChips(reactions: seq<Reaction>, self: Option<UserId>) returns (chips: seq<Chip>)
    ensures chips == Aggregate(reactions, self)
  {
    var entries: seq<Chip> := [];
    for i := 0 to |reactions|
      invariant entries == Tally(reactions[..i], self)
    {
      assert reactions[..i + 1][..i] == reactions[..i];
      var r := reactions[i];
      var at := IndexOf(entries, r.emoji);
      if at < |entries| {
        entries := entries[at := Chip(r.emoji, entries[at].count + 1, entries[at].mine || IsMine(r, self))];
      } else {
        entries := entries + [Chip(r.emoji, 1, IsMine(r, self))];
      }
    }
    assert reactions[..|reactions|] == reactions;
    chips := SortChips(entries);
  }

  // ---------- Meaning ----------

  function Occurrences(reactions: seq<Reaction>, emoji: Emoji): nat
    decreases |reactions|
  {
    if reactions == [] then 0
    else (if reactions[|reactions| - 1].emoji == emoji then 1 else 0) + Occurrences(reactions[..|reactions| - 1], emoji)
  }

  /** The chip an emoji deserves, read off the reactions as a bag. */
  ghost predicate Deserved(c: Chip, reactions: seq<Reaction>, self: Option<UserId>) {
    && c.count == Occurrences(reactions, c.emoji) && 0 < c.count
    && (c.mine <==> exists r :: r in reactions && r.emoji == c.emoji && IsMine(r, self))
  }

  ghost predicate Exactly(chips: seq<Chip>, reactions: seq<Reaction>, self: Option<UserId>) {
    && (forall i :: 0 <= i < |chips| ==> Deserved(chips[i], reactions, self))
    && (forall i, j :: 0 <= i < j < |chips| ==> chips[i].emoji != chips[j].emoji)
    && (forall r :: r in reactions ==> exists i :: 0 <= i < |chips| && chips[i].emoji == r.emoji)
  }

  lemma {:induction false} OccurrencesMember(reactions: seq<Reaction>, emoji: Emoji)
    ensures 0 < Occurrences(reactions, emoji) <==> exists r :: r in reactions && r.emoji == emoji
    decreases |reactions|
  {
    if reactions != [] {
      var front, last := reactions[..|reactions| - 1], reactions[|reactions| - 1];
      assert reactions == front + [last];
      OccurrencesMember(front, emoji);
      if last.emoji == emoji { assert last in reactions; }
    }
  }

  lemma {:induction false} TallyExact(reactions: seq<Reaction>, self: Option<UserId>)
    ensures Exactly(Tally(reactions, self), reactions, self)
    decreases |reactions|
  {
    if reactions != [] {
      var front, last := reactions[..|reactions| - 1], reactions[|reactions| - 1];
      assert reactions == front + [last];
      TallyExact(front, self);
      CountExact(Tally(front, self), front, last, self, reactions, Tally(reactions, self));
    }
  }

  lemma {:induction false} CountExact(chips: seq<Chip>, front: seq<Reaction>, last: Reaction, self: Option<UserId>,
                   reactions: seq<Reaction>, after: seq<Chip>)
    requires Exactly(chips, front, self) && reactions == front + [last] && after == Count(chips, last, self)
    ensures Exactly(after, reactions, self)
  {
    var at := IndexOf(chips, last.emoji);
    assert reactions[..|reactions| - 1] == front;
    assert last in reactions;
    if at == |chips| {
      OccurrencesMember(front, last.emoji);
      forall r | r in front ensures r.emoji != last.emoji {
        var i :| 0 <= i < |chips| && chips[i].emoji == r.emoji;
      }
    }
    forall i | 0 <= i < |after| ensures Deserved(after[i], reactions, self) {
      if i < |chips| { assert Deserved(chips[i], front, self) && chips[i].emoji == after[i].emoji; }
    }
    forall r | r in reactions ensures exists i :: 0 <= i < |after| && after[i].emoji == r.emoji {
      if r in front {
        var i :| 0 <= i < |chips| && chips[i].emoji == r.emoji;
        assert after[i].emoji == r.emoji;
      } else {
        assert after[at].emoji == r.emoji;
      }
    }
  }

  predicate Ranked(chips: seq<Chip>) {
    forall i, j :: 0 <= i < j < |chips| ==> Before(chips[i], chips[j])
  }

  lemma {:induction false} InsertChipRanks(chips: seq<Chip>, c: Chip)
    requires Ranked(chips) && forall x :: x in chips ==> x.emoji != c.emoji
    ensures Ranked(InsertChip(chips, c)) && |InsertChip(chips, c)| == |chips| + 1
    ensures forall x :: x in InsertChip(chips, c) <==> x in chips || x == c
  {
    if chips != [] {
      assert chips == [chips[0]] + chips[1..];
      if !Before(c, chips[0]) {
        InsertChipRanks(chips[1..], c);
        var r := InsertChip(chips[1..], c);
        forall i | 0 <= i < |r| ensures Before(chips[0], r[i]) { assert r[i] in r; }
      }
    }
  }

  lemma {:induction false} SortChipsRanks(chips: seq<Chip>)
    requires forall i, j :: 0 <= i < j < |chips| ==> chips[i].emoji != chips[j].emoji
    ensures Ranked(SortChips(chips)) && |SortChips(chips)| == |chips|
    ensures forall x :: x in SortChips(chips) <==> x in chips
    decreases |chips|
  {
    if chips != [] {
      var front, last := chips[..|chips| - 1], chips[|chips| - 1];
      assert chips == front + [last];
      SortChipsRanks(front);
      InsertChipRanks(SortChips(front), last);
    }
  }

  /**
   Chips are ranked, most reactions first and then by emoji, and hold for each used emoji its number of
   reactions and whether one is mine.
   */
  lemma {:induction false} AggregateMeaning(reactions: seq<Reaction>, self: Option<UserId>)
    ensures Ranked(Aggregate(reactions, self))
    ensures var chips := Aggregate(reactions, self);
      forall i, j :: 0 <= i < j < |chips| ==>
        chips[j].count < chips[i].count || (chips[j].count == chips[i].count && chips[i].emoji < chips[j].emoji)
    ensures forall c :: c in Aggregate(reactions, self) <==> Deserved(c, reactions, self)
  {
    var tally := Tally(reactions, self);
    TallyExact(reactions, self);
    SortChipsRanks(tally);
    forall c ensures c in tally <==> Deserved(c, reactions, self) {
      if Deserved(c, reactions, self) {
        OccurrencesMember(reactions, c.emoji);
        var i :| 0 <= i < |tally| && tally[i].emoji == c.emoji;
        assert Deserved(tally[i], reactions, self);
        assert tally[i] == c;
      }
    }
  }

  function CountSum(chips: seq<Chip>): nat
    decreases |chips|
  {
    if chips == [] then 0 else chips[|chips| - 1].count + CountSum(chips[..|chips| - 1])
  }

  lemma {:induction false} CountSumAppend(a: seq<Chip>, b: seq<Chip>)
    ensures CountSum(a + b) == CountSum(a) + CountSum(b)
    decreases |b|
  {
    if b == [] {
      assert a + b == a;
    } else {
      assert (a + b)[..|a + b| - 1] == a + b[..|b| - 1];
      CountSumAppend(a, b[..|b| - 1]);
    }
  }

  lemma {:induction false} ReplaceSum(chips: seq<Chip>, i: nat, c: Chip)
    requires i < |chips|
    ensures CountSum(chips[i := c]) + chips[i].count == CountSum(chips) + c.count
    decreases |chips|
  {
    var n := |chips| - 1;
    if i == n {
      assert chips[i := c][..n] == chips[..n];
    } else {
      assert chips[i := c][..n] == chips[..n][i := c];
      ReplaceSum(chips[..n], i, c);
    }
  }

  lemma {:induction false} CountAddsOne(chips: seq<Chip>, r: Reaction, self: Option<UserId>)
    ensures CountSum(Count(chips, r, self)) == CountSum(chips) + 1
  {
    var i := IndexOf(chips, r.emoji);
    if i < |chips| {
      ReplaceSum(chips, i, Count(chips, r, self)[i]);
    } else {
      assert (chips + [Chip(r.emoji, 1, IsMine(r, self))])[..|chips|] == chips;
    }
  }

  lemma {:induction false} InsertChipSum(chips: seq<Chip>, c: Chip)
    ensures CountSum(InsertChip(chips, c)) == CountSum(chips) + c.count
  {
    assert [c][..0] == [];
    if chips == [] {
    } else if Before(c, chips[0]) {
      CountSumAppend([c], chips);
    } else {
      InsertChipSum(chips[1..], c);
      CountSumAppend([chips[0]], InsertChip(chips[1..], c));
      CountSumAppend([chips[0]], chips[1..]);
      assert chips == [chips[0]] + chips[1..];
    }
  }

  lemma {:induction false} SortChipsSum(chips: seq<Chip>)
    ensures CountSum(SortChips(chips)) == CountSum(chips)
    decreases |chips|
  {
    if chips != [] {
      SortChipsSum(chips[..|chips| - 1]);
      InsertChipSum(SortChips(chips[..|chips| - 1]), chips[|chips| - 1]);
    }
  }

  lemma {:induction false} TallySum(reactions: seq<Reaction>, self: Option<UserId>)
    ensures CountSum(Tally(reactions, self)) == |reactions|
    decreases |reactions|
  {
    if reactions != [] {
      TallySum(reactions[..|reactions| - 1], self);
      CountAddsOne(Tally(reactions[..|reactions| - 1], self), reactions[|reactions| - 1], self);
    }
  }

  /** No reaction is lost or counted twice. */
  lemma {:induction false} CountsSum(reactions: seq<Reaction>, self: Option<UserId>)
    ensures CountSum(Aggregate(reactions, self)) == |reactions|
  {
    TallySum(reactions, self);
    SortChipsSum(Tally(reactions, self));
  }

  lemma {:induction false} OccurrencesAppend(a: seq<Reaction>, b: seq<Reaction>, emoji: Emoji)
    ensures Occurrences(a + b, emoji) == Occurrences(a, emoji) + Occurrences(b, emoji)
    decreases |b|
  {
    if b == [] {
      assert a + b == a;
    } else {
      assert (a + b)[..|a + b| - 1] == a + b[..|b| - 1];
      OccurrencesAppend(a, b[..|b| - 1], emoji);
    }
  }

  lemma {:induction false} DropOne(b: seq<Reaction>, k: nat, emoji: Emoji)
    requires k < |b|
    ensures var rest := b[..k] + b[k + 1..];
      && multiset(rest) == multiset(b) - multiset{b[k]}
      && Occurrences(b, emoji) == Occurrences(rest, emoji) + if b[k].emoji == emoji then 1 else 0
  {
    var front, x, back := b[..k], b[k], b[k + 1..];
    assert b == front + ([x] + back);
    OccurrencesAppend(front, [x] + back, emoji);
    OccurrencesAppend([x], back, emoji);
    OccurrencesAppend(front, back, emoji);
    assert [x][..0] == [];
  }

  lemma {:induction false} OccurrencesOfBag(a: seq<Reaction>, b: seq<Reaction>, emoji: Emoji)
    requires multiset(a) == multiset(b)
    ensures Occurrences(a, emoji) == Occurrences(b, emoji)
    decreases |a|
  {
    assert |a| == |multiset(a)| == |multiset(b)| == |b|;
    if a != [] {
      assert a[0] in multiset(b);
      var k :| 0 <= k < |b| && b[k] == a[0];
      DropOne(a, 0, emoji);
      DropOne(b, k, emoji);
      OccurrencesOfBag(a[..0] + a[1..], b[..k] + b[k + 1..], emoji);
    }
  }

  lemma {:induction false} RankedUnique(a: seq<Chip>, b: seq<Chip>)
    requires Ranked(a) && Ranked(b) && forall c :: c in a <==> c in b
    ensures a == b
    decreases |a|
  {
    FirstIsMember(a);
    FirstIsMember(b);
    if a != [] {
      assert a[0] in b;
      assert b[0] in a;
      TailMembers(a);
      TailMembers(b);
      assert a[0] == b[0];
      RankedUnique(a[1..], b[1..]);
      assert a == [a[0]] + a[1..] && b == [b[0]] + b[1..];
    }
  }

  lemma FirstIsMember(a: seq<Chip>)
    ensures a != [] ==> a[0] in a
  {
  }

  lemma TailMembers(a: seq<Chip>)
    requires Ranked(a) && a != []
    ensures forall c :: c in a[1..] <==> c in a && c != a[0]
  {
  }

  /** Chips depend only on the bag of reactions, not on the order they arrived in. */
  lemma {:induction false} ChipsOfBag(a: seq<Reaction>, b: seq<Reaction>, self: Option<UserId>)
    requires multiset(a) == multiset(b)
    ensures Aggregate(a, self) == Aggregate(b, self)
  {
    AggregateMeaning(a, self);
    AggregateMeaning(b, self);
    forall r ensures r in a <==> r in b { assert r in multiset(a) <==> r in multiset(b); }
    forall c ensures Deserved(c, a, self) <==> Deserved(c, b, self) { OccurrencesOfBag(a, b, c.emoji); }
    RankedUnique(Aggregate(a, self), Aggregate(b, self));
  }
}
