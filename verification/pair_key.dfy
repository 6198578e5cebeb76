/**
 directPairKeyFor: the canonical key of an unordered pair of user ids.
 */
module PairKey {
  import opened Domain

  /** Lexicographic order, as Array.prototype.sort compares strings. */
  predicate Precedes(a: string, b: string) {
    if a == [] then b != []
    else if b == [] then false
    else if a[0] == b[0] then Precedes(a[1..], b[1..])
    else a[0] < b[0]
  }

  /** None stands for the error thrown when the two ids are equal. */
  function DirectPairKey(a: string, b: string): Option<string> {
    if a == b then None
    else if Precedes(b, a) then Some(b + ":" + a)
    else Some(a + ":" + b)
  }

  predicate ColonFree(s: string) {
    ':' !in s
  }

  lemma {:induction false} OneOrder(a: string, b: string)
    requires a != b
    ensures Precedes(a, b) <==> !Precedes(b, a)
  {
    if a != [] && b != [] && a[0] == b[0] {
      assert a == [a[0]] + a[1..] && b == [b[0]] + b[1..];
      OneOrder(a[1..], b[1..]);
    }
  }

  /** The key does not depend on who starts the chat. */
  lemma {:induction false} Symmetric(a: string, b: string)
    ensures DirectPairKey(a, b) == DirectPairKey(b, a)
  {
    if a != b { OneOrder(a, b); }
  }

  /** A joined key starts with a colon exactly when its first id is empty. */
  lemma Head(u: string, v: string)
    requires ColonFree(u)
    ensures (u + ":" + v)[0] == ':' <==> u == []
    ensures u != [] ==> (u + ":" + v)[0] == u[0]
  {
  }

  lemma {:induction false} JoinInjective(x: string, y: string, u: string, v: string)
    requires ColonFree(x) && ColonFree(u) && x + ":" + y == u + ":" + v
    ensures x == u && y == v
    decreases |x|
  {
    var s, t := x + ":" + y, u + ":" + v;
    Head(x, y);
    Head(u, v);
    if x == [] {
      assert s[1..] == y && t[1..] == v;
    } else {
      assert s[1..] == x[1..] + ":" + y && t[1..] == u[1..] + ":" + v;
      JoinInjective(x[1..], y, u[1..], v);
      assert x == [x[0]] + x[1..] && u == [u[0]] + u[1..];
    }
  }

  /** Distinct unordered pairs of colon-free ids never share a key. */
  lemma {:induction false} InjectiveOnPairs(a: string, b: string, c: string, d: string)
    requires a != b && c != d && ColonFree(a) && ColonFree(b) && ColonFree(c) && ColonFree(d)
    ensures DirectPairKey(a, b) == DirectPairKey(c, d) <==> {a, b} == {c, d}
  {
    if DirectPairKey(a, b) == DirectPairKey(c, d) {
      var x, y := if Precedes(b, a) then b else a, if Precedes(b, a) then a else b;
      var u, v := if Precedes(d, c) then d else c, if Precedes(d, c) then c else d;
      JoinInjective(x, y, u, v);
    }
    if {a, b} == {c, d} {
      assert a in {c, d} && b in {c, d};
      Symmetric(a, b);
    }
  }

  // ---------- When two pairs share a key ----------

  function First(a: string, b: string): string {
    if Precedes(b, a) then b else a
  }

  function Second(a: string, b: string): string {
    if Precedes(b, a) then a else b
  }

  /** One text u:t:y, split after t for x and before t for u. */
  predicate SplitApart(x: string, y: string, u: string, v: string) {
    |u| < |x| && |y| < |v| && x == u + ":" + v[..|v| - |y| - 1] && v == v[..|v| - |y| - 1] + ":" + y
  }

  lemma {:induction false} LongerFirst(x: string, y: string, u: string, v: string)
    requires |u| < |x|
    ensures x + ":" + y == u + ":" + v <==> SplitApart(x, y, u, v)
  {
    var s, t := x + ":" + y, u + ":" + v;
    if s == t {
      var mid := x[|u| + 1..];
      assert s[..|u|] == u && s[|u|] == ':';
      assert x == u + ":" + mid by { assert x == s[..|x|]; }
      assert v == mid + ":" + y by { assert v == t[|u| + 1..] == s[|u| + 1..]; }
      assert v[..|v| - |y| - 1] == mid;
    }
    if SplitApart(x, y, u, v) {
      var mid := v[..|v| - |y| - 1];
      assert s == u + ":" + mid + ":" + y == u + ":" + (mid + ":" + y);
      assert s == t;
    }
  }

  /**
   Any two pairs, whatever their ids: they share a key if and only if they are the same pair, or
   the key of one reads s:t:u with one pair split at its first of these colons and the other at
   its second. So a shared key always takes an id with a colon in each pair.
   */
  lemma {:induction false} SharedKeyExactly(a: string, b: string, c: string, d: string)
    requires a != b && c != d
    ensures DirectPairKey(a, b) == DirectPairKey(c, d)
      <==> {a, b} == {c, d}
           || SplitApart(First(a, b), Second(a, b), First(c, d), Second(c, d))
           || SplitApart(First(c, d), Second(c, d), First(a, b), Second(a, b))
  {
    var x, y, u, v := First(a, b), Second(a, b), First(c, d), Second(c, d);
    assert DirectPairKey(a, b) == Some(x + ":" + y) && DirectPairKey(c, d) == Some(u + ":" + v);
    SamePair(a, b, c, d);
    if |x| == |u| {
      if x + ":" + y == u + ":" + v {
        assert x == (x + ":" + y)[..|x|] == (u + ":" + v)[..|u|] == u;
        assert y == (x + ":" + y)[|x| + 1..] == (u + ":" + v)[|u| + 1..] == v;
      }
    } else if |u| < |x| {
      LongerFirst(x, y, u, v);
    } else {
      LongerFirst(u, v, x, y);
    }
  }

  lemma {:induction false} SamePair(a: string, b: string, c: string, d: string)
    requires a != b && c != d
    ensures {a, b} == {c, d} <==> First(a, b) == First(c, d) && Second(a, b) == Second(c, d)
  {
    OneOrder(a, b);
    assert {a, b} == {First(a, b), Second(a, b)} && {c, d} == {First(c, d), Second(c, d)};
    if {a, b} == {c, d} { assert a in {c, d} && b in {c, d}; }
  }

  lemma {:induction false} PrefixPrecedes(a: string, b: string)
    requires b != []
    ensures Precedes(a, a + b) && !Precedes(a + b, a)
  {
    if a != [] {
      assert (a + b)[1..] == a[1..] + b;
      PrefixPrecedes(a[1..], b);
    }
  }

  /** No id is safe beside ids with a colon: every id is in a pair that shares its key with another. */
  lemma {:induction false} EveryIdCollides(x: string) returns (y: string, c: string, d: string)
    ensures x != y && c != d && {x, y} != {c, d} && DirectPairKey(x, y) == DirectPairKey(c, d)
  {
    var p := x + "0";
    c := x + ":" + p;
    d := c + "0";
    y := p + ":" + d;
    var rest := "0:" + d;
    assert y == x + rest;
    PrefixPrecedes(x, rest);
    PrefixPrecedes(c, "0");
    assert x + ":" + y == c + ":" + d;
    assert |c| != |x| && |d| != |x|;
    assert x !in {c, d};
  }
}
