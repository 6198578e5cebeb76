/**
 hashIdentityKey: djb2 through JavaScript's 32-bit operators, over a key's UTF-16 code units.
 */
module Hash {
  const TWO_31 := 0x8000_0000
  const TWO_32 := 0x1_0000_0000
  const TWO_53 := 0x20_0000_0000_0000
  const PALETTE_SIZE := 8

  type CodeUnit = c: nat | c < 0x1_0000

  /** ToUint32 and ToInt32 (ECMA-262 sections 7.1.7 and 7.1.6) of an integral number. */
  function ToUint32(x: int): (r: int)
    ensures 0 <= r < TWO_32
  {
    x % TWO_32
  }

  function ToInt32(x: int): (r: int)
    ensures -TWO_31 <= r < TWO_31
  {
    var m := x % TWO_32;
    if m >= TWO_31 then m - TWO_32 else m
  }

  /** x << 5. */
  function ShiftLeft5(x: int): (r: int)
    ensures -TWO_31 <= r < TWO_31
  {
    ToInt32(ToInt32(x) * 32)
  }

  predicate Exact(x: int) {
    -TWO_53 < x < TWO_53
  }

  /** Numbers that differ by a multiple of 2^32 are one 32-bit word. */
  predicate SameWord(x: int, y: int) {
    (x - y) % TWO_32 == 0
  }

  lemma ToInt32Same(x: int)
    ensures SameWord(ToInt32(x), x) && SameWord(ToUint32(x), x)
  {
  }

  lemma {:induction false} SameWordScaled(x: int, y: int, k: int)
    requires SameWord(x, y)
    ensures SameWord(x * k, y * k)
  {
    var q := (x - y) / TWO_32;
    assert x - y == q * TWO_32;
    assert x * k - y * k == (q * k) * TWO_32;
    MultipleIsZero(q * k);
  }

  lemma MultipleIsZero(q: int)
    ensures (q * TWO_32) % TWO_32 == 0
  {
  }

  lemma SameWordSum(x: int, y: int, u: int, v: int)
    requires SameWord(x, y) && SameWord(u, v)
    ensures SameWord(x + u, y + v)
  {
  }

  lemma SameWordChain(x: int, y: int, z: int)
    requires SameWord(x, y) && SameWord(y, z)
    ensures SameWord(x, z)
  {
  }

  lemma SameWordUnsigned(x: int, y: int)
    requires SameWord(x, y)
    ensures ToUint32(x) == ToUint32(y)
  {
  }

  /** Shifting, adding and truncating leave the word 33 * hash, whatever the truncations did. */
  lemma {:induction false} RoundWord(hash: int, scaled: int, shifted: int, summed: int)
    requires scaled == ToInt32(hash) * 32 && shifted == ToInt32(scaled) && summed == ToInt32(shifted + hash)
    ensures SameWord(summed, hash * 32 + hash)
  {
    ToInt32Same(hash);
    SameWordScaled(ToInt32(hash), hash, 32);
    ToInt32Same(scaled);
    SameWordChain(shifted, scaled, hash * 32);
    SameWordSum(shifted, hash * 32, hash, hash);
    ToInt32Same(shifted + hash);
    SameWordChain(summed, shifted + hash, hash * 32 + hash);
  }

  /** One round: every intermediate is exact as a double, and the result is 33 * hash + c as a word. */
  lemma {:induction false} RoundIsExact(hash: int, c: CodeUnit)
    requires 0 <= hash < TWO_32
    ensures Exact(ToInt32(hash) * 32) && Exact(ShiftLeft5(hash) + hash)
    ensures Exact(ToInt32(ShiftLeft5(hash) + hash) + ToInt32(c))
    ensures ToUint32(ToInt32(ShiftLeft5(hash) + hash) + ToInt32(c)) == (33 * hash + c) % TWO_32
  {
    var shifted := ShiftLeft5(hash);
    var summed := ToInt32(shifted + hash);
    RoundWord(hash, ToInt32(hash) * 32, shifted, summed);
    SmallIsItself(c);
    SameWordSum(summed, hash * 32 + hash, c, c);
    SameWordUnsigned(summed + c, hash * 32 + hash + c);
  }

  lemma SmallIsItself(c: CodeUnit)
    ensures ToInt32(c) == c
  {
  }

  function Power33(n: nat): nat {
    if n == 0 then 1 else 33 * Power33(n - 1)
  }

  /** The sum of c_i * 33^(n - 1 - i) over the code units of the key. */
  function Polynomial(key: seq<CodeUnit>): nat {
    if key == [] then 0 else key[0] * Power33(|key| - 1) + Polynomial(key[1..])
  }

  lemma {:induction false} PolynomialLast(key: seq<CodeUnit>, c: CodeUnit)
    ensures Polynomial(key + [c]) == 33 * Polynomial(key) + c
  {
    if key == [] {
      assert key + [c] == [c] && [c][1..] == [];
    } else {
      assert (key + [c])[1..] == key[1..] + [c];
      PolynomialLast(key[1..], c);
      Scale(key[0], Power33(|key| - 1));
    }
  }

  lemma Scale(a: int, p: int)
    ensures a * (33 * p) == 33 * (a * p)
  {
  }

  /** The hash without any width: 5381 * 33^n + sum of c_i * 33^(n - 1 - i). */
  function Unbounded(key: seq<CodeUnit>): nat {
    5381 * Power33(|key|) + Polynomial(key)
  }

  lemma {:induction false} UnboundedLast(key: seq<CodeUnit>, c: CodeUnit)
    ensures Unbounded(key + [c]) == 33 * Unbounded(key) + c
  {
    PolynomialLast(key, c);
  }

  lemma WordRound(h: nat, c: nat)
    ensures (33 * (h % TWO_32) + c) % TWO_32 == (33 * h + c) % TWO_32
  {
  }

  /** A round takes the hash of a key to the hash of the key with one more code unit. */
  lemma {:induction false} RoundExtends(key: seq<CodeUnit>, c: CodeUnit, hash: int)
    requires hash == Unbounded(key) % TWO_32
    ensures ToUint32(ToInt32(ShiftLeft5(hash) + hash) + ToInt32(c)) == Unbounded(key + [c]) % TWO_32
  {
    RoundIsExact(hash, c);
    WordRound(Unbounded(key), c);
    UnboundedLast(key, c);
  }

  /**
   The loop over code units computes the unbounded polynomial modulo 2^32, for keys of every
   length; RoundIsExact shows that doubles carry each of its steps exactly.
   */
  method HashIdentityKey(key: seq<CodeUnit>) returns (hash: int)
    ensures hash == Unbounded(key) % TWO_32
    ensures 0 <= hash < TWO_32
  {
    hash := 5381;
    for i := 0 to |key|
      invariant 0 <= hash < TWO_32
      invariant hash == Unbounded(key[..i]) % TWO_32
    {
      assert key[..i + 1] == key[..i] + [key[i]];
      RoundExtends(key[..i], key[i], hash);
      hash := ToInt32(ShiftLeft5(hash) + hash) + ToInt32(key[i]);
      hash := ToUint32(hash);
    }
    assert key[..|key|] == key;
    hash := ToUint32(hash);
  }

  /** The palette index is always one of the eight colours. */
  method AvatarPaletteIndex(key: seq<CodeUnit>) returns (index: nat)
    ensures index < PALETTE_SIZE && index == Unbounded(key) % TWO_32 % PALETTE_SIZE
  {
    var hash := HashIdentityKey(key);
    index := hash % PALETTE_SIZE;
  }
}
