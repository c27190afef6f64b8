/** The built-in key orders: total, and equal only on identical bytes. */
module Comparators {
  import opened Semantics

  type Bytes = seq<Byte>

  datatype Order = Less | Equal | Greater

  function Flip(o: Order): Order
  {
    match o case Less => Greater case Equal => Equal case Greater => Less
  }

  function Then(first: Order, second: Order): Order
  {
    if first == Equal then second else first
  }

  function IntCmp(x: int, y: int): Order
  {
    if x < y then Less else if x == y then Equal else Greater
  }

  /** `Equal` means identical, swapping flips, and order chains. */
  ghost predicate TotalOrder(cmp: (Bytes, Bytes) -> Order)
  {
    && (forall a, b :: cmp(a, b) == Equal <==> a == b)
    && (forall a, b :: cmp(b, a) == Flip(cmp(a, b)))
    && (forall a, b, c :: cmp(a, b) != Greater && cmp(b, c) != Greater ==> cmp(a, c) != Greater)
  }

  /** Byte order. */
  function ByteCmp(a: Bytes, b: Bytes): Order
  {
    if a == [] || b == [] then IntCmp(|a|, |b|)
    else Then(IntCmp(a[0], b[0]), ByteCmp(a[1..], b[1..]))
  }

  lemma {:induction false} ByteEqual(a: Bytes, b: Bytes)
    ensures ByteCmp(a, b) == Equal <==> a == b
  {
    if a != [] && b != [] {
      ByteEqual(a[1..], b[1..]);
      assert a == [a[0]] + a[1..] && b == [b[0]] + b[1..];
    }
  }

  lemma {:induction false} ByteFlips(a: Bytes, b: Bytes)
    ensures ByteCmp(b, a) == Flip(ByteCmp(a, b))
  {
    if a != [] && b != [] { ByteFlips(a[1..], b[1..]); }
  }

  lemma {:induction false} ByteChains(a: Bytes, b: Bytes, c: Bytes)
    requires ByteCmp(a, b) != Greater && ByteCmp(b, c) != Greater
    ensures ByteCmp(a, c) != Greater
    ensures ByteCmp(a, c) == Equal ==> ByteCmp(a, b) == Equal && ByteCmp(b, c) == Equal
  {
    if a != [] && b != [] && c != [] && a[0] == b[0] == c[0] { ByteChains(a[1..], b[1..], c[1..]); }
  }

  // ---- big-endian integers ------------------------------------------------------------------

  function Weight(n: nat): nat
  {
    if n == 0 then 1 else 256 * Weight(n - 1)
  }

  function Big(b: Bytes): nat
  {
    if b == [] then 0 else var high: nat := b[0]; high * Weight(|b| - 1) + Big(b[1..])
  }

  lemma HighFits(x: nat, w: nat, low: nat)
    requires x < 256 && low < w
    ensures x * w + low < 256 * w
  {
    assert x * w + low < (x + 1) * w;
    assert (x + 1) * w <= 256 * w;
  }

  lemma HighDecides(x: nat, y: nat, w: nat, p: nat, q: nat)
    requires x < y && p < w
    ensures x * w + p < y * w + q
  {
    assert x * w + p < (x + 1) * w;
    assert (x + 1) * w <= y * w;
  }

  lemma {:induction false} BigFits(b: Bytes)
    ensures Big(b) < Weight(|b|)
  {
    if b == [] {
    } else {
      BigFits(b[1..]);
      HighFits(b[0], Weight(|b| - 1), Big(b[1..]));
    }
  }

  /** Big-endian integers of one width compare as their bytes do. */
  lemma {:induction false} BigOrder(a: Bytes, b: Bytes)
    requires |a| == |b|
    ensures IntCmp(Big(a), Big(b)) == ByteCmp(a, b)
  {
    if a == [] {
    } else {
      BigOrder(a[1..], b[1..]);
      BigFits(a[1..]);
      BigFits(b[1..]);
      if a[0] < b[0] {
        HighDecides(a[0], b[0], Weight(|a| - 1), Big(a[1..]), Big(b[1..]));
      } else if a[0] > b[0] {
        HighDecides(b[0], a[0], Weight(|a| - 1), Big(b[1..]), Big(a[1..]));
      }
    }
  }

  function Uint64Cmp(a: Bytes, b: Bytes): Order
  {
    if |a| == 8 && |b| == 8 then IntCmp(Big(a), Big(b)) else ByteCmp(a, b)
  }

  lemma {:induction false} Uint64IsByteOrder(a: Bytes, b: Bytes)
    ensures Uint64Cmp(a, b) == ByteCmp(a, b)
  {
    if |a| == 8 && |b| == 8 { BigOrder(a, b); }
  }

  // ---- signed integers ------------------------------------------------------------------------

  const ZERO: Bytes := [0, 0, 0, 0, 0, 0, 0, 0]

  predicate Negative(k: Bytes)
  {
    |k| == 8 && k[0] >= 128
  }

  function Signed(k: Bytes): int
  {
    Big(k) - if Negative(k) then Weight(8) else 0
  }

  /** `int64_rank`: a negative key just below zero, every other key where byte order has it. */
  datatype Rank = Rank(bytes: Bytes, flag: int, value: int)

  function RankOf(k: Bytes): Rank
  {
    if Negative(k) then Rank(ZERO, 0, Signed(k)) else Rank(k, 1, 0)
  }

  function RankCmp(x: Rank, y: Rank): Order
  {
    Then(ByteCmp(x.bytes, y.bytes), Then(IntCmp(x.flag, y.flag), IntCmp(x.value, y.value)))
  }

  function Int64Cmp(a: Bytes, b: Bytes): Order
  {
    if |a| == 8 && |b| == 8 then IntCmp(Signed(a), Signed(b)) else RankCmp(RankOf(a), RankOf(b))
  }

  lemma {:induction false} BigZero(b: Bytes)
    requires forall i :: 0 <= i < |b| ==> b[i] == 0
    ensures Big(b) == 0
  {
    if b == [] {
    } else {
      BigZero(b[1..]);
    }
  }

  lemma {:induction false} ZeroFirst(b: Bytes)
    requires |b| == 8
    ensures ByteCmp(ZERO, b) != Greater && (ByteCmp(ZERO, b) == Equal <==> b == ZERO)
  {
    BigZero(ZERO);
    BigOrder(ZERO, b);
    ByteEqual(ZERO, b);
  }

  lemma SignedSplits(k: Bytes)
    requires |k| == 8
    ensures Negative(k) <==> Signed(k) < 0
  {
    BigFits(k);
    BigFits(k[1..]);
    var high: nat, w := k[0], Weight(7);
    if high >= 128 { assert high * w >= 128 * w; } 
  }

  /** The eight-byte shortcut is the rank order too, so every pair compares by rank. */
  lemma Int64ByRank(a: Bytes, b: Bytes)
    ensures Int64Cmp(a, b) == RankCmp(RankOf(a), RankOf(b))
  {
    if |a| == 8 && |b| == 8 {
      SignedSplits(a);
      SignedSplits(b);
      ByteEqual(ZERO, ZERO);
      ZeroFirst(a);
      ZeroFirst(b);
      ByteFlips(ZERO, a);
      BigOrder(a, b);
    }
  }

  lemma {:induction false} BigInjective(a: Bytes, b: Bytes)
    requires |a| == |b| && Big(a) == Big(b)
    ensures a == b
  {
    BigOrder(a, b);
    ByteEqual(a, b);
  }

  lemma Int64Equal(a: Bytes, b: Bytes)
    ensures Int64Cmp(a, b) == Equal <==> a == b
  {
    Int64ByRank(a, b);
    ByteEqual(RankOf(a).bytes, RankOf(b).bytes);
    if Negative(a) && Negative(b) && Signed(a) == Signed(b) { BigInjective(a, b); }
  }

  lemma Int64Flips(a: Bytes, b: Bytes)
    ensures Int64Cmp(b, a) == Flip(Int64Cmp(a, b))
  {
    Int64ByRank(a, b);
    Int64ByRank(b, a);
    ByteFlips(RankOf(a).bytes, RankOf(b).bytes);
  }

  lemma Int64Chains(a: Bytes, b: Bytes, c: Bytes)
    requires Int64Cmp(a, b) != Greater && Int64Cmp(b, c) != Greater
    ensures Int64Cmp(a, c) != Greater
  {
    Int64ByRank(a, b);
    Int64ByRank(b, c);
    Int64ByRank(a, c);
    ByteChains(RankOf(a).bytes, RankOf(b).bytes, RankOf(c).bytes);
  }

  /** `Int64Cmp` is a total order on keys of every length. */
  lemma Int64Total()
    ensures TotalOrder(Int64Cmp)
  {
    forall a, b ensures Int64Cmp(a, b) == Equal <==> a == b { Int64Equal(a, b); }
    forall a, b ensures Int64Cmp(b, a) == Flip(Int64Cmp(a, b)) { Int64Flips(a, b); }
    forall a, b, c | Int64Cmp(a, b) != Greater && Int64Cmp(b, c) != Greater
      ensures Int64Cmp(a, c) != Greater
    {
      Int64Chains(a, b, c);
    }
  }

  // ---- letter case ----------------------------------------------------------------------------

  function LowerByte(b: Byte): Byte
  {
    if 65 <= b <= 90 then b + 32 else b
  }

  function Lower(a: Bytes): (r: Bytes)
    ensures |r| == |a|
  {
    if a == [] then [] else [LowerByte(a[0])] + Lower(a[1..])
  }

  /** Lowercased bytes first, raw bytes to break ties. */
  function CaseCmp(a: Bytes, b: Bytes): Order
  {
    Then(ByteCmp(Lower(a), Lower(b)), ByteCmp(a, b))
  }

  /** `CaseInsensitive::compare`. */
  method CompareCaseInsensitive(a: Bytes, b: Bytes) returns (o: Order)
    ensures o == CaseCmp(a, b)
  {
    var n := if |a| < |b| then |a| else |b|;
    var i := 0;
    while i < n
      invariant 0 <= i <= n && ByteCmp(Lower(a[i..]), Lower(b[i..])) == ByteCmp(Lower(a), Lower(b))
    {
      var x, y := LowerByte(a[i]), LowerByte(b[i]);
      assert Lower(a[i..]) == [x] + Lower(a[i + 1..]) && Lower(b[i..]) == [y] + Lower(b[i + 1..]);
      assert Lower(a[i..])[1..] == Lower(a[i + 1..]) && Lower(b[i..])[1..] == Lower(b[i + 1..]);
      if IntCmp(x, y) != Equal { return IntCmp(x, y); }
      i := i + 1;
    }
    o := Then(IntCmp(|a|, |b|), ByteCmp(a, b));
  }

  /** Two bytes fold together exactly when they are equal or the two cases of a letter. */
  lemma FoldsLetters(x: Byte, y: Byte)
    ensures LowerByte(x) == LowerByte(y) <==>
            x == y || (65 <= x <= 90 && y == x + 32) || (65 <= y <= 90 && x == y + 32)
  {
  }

  lemma {:induction false} FoldsAlike(a: Bytes, b: Bytes)
    ensures Lower(a) == Lower(b) <==> |a| == |b| && forall i :: 0 <= i < |a| ==> LowerByte(a[i]) == LowerByte(b[i])
  {
    if a == [] || b == [] {
    } else {
      FoldsAlike(a[1..], b[1..]);
      assert Lower(a) == [LowerByte(a[0])] + Lower(a[1..]) && Lower(b) == [LowerByte(b[0])] + Lower(b[1..]);
      assert Lower(a)[1..] == Lower(a[1..]) && Lower(b)[1..] == Lower(b[1..]);
      if |a| == |b| && forall i :: 0 <= i < |a| ==> LowerByte(a[i]) == LowerByte(b[i]) {
        forall i | 0 <= i < |a[1..]| ensures LowerByte(a[1..][i]) == LowerByte(b[1..][i]) {
          assert a[1..][i] == a[i + 1] && b[1..][i] == b[i + 1];
        }
      }
      if Lower(a) == Lower(b) {
        forall i | 0 <= i < |a| ensures LowerByte(a[i]) == LowerByte(b[i]) {
          if i > 0 { assert a[i] == a[1..][i - 1] && b[i] == b[1..][i - 1]; }
        }
      }
    }
  }

  /** Keys that differ only in case lie together: whatever is between two of them is another. */
  lemma {:induction false} CaseTogether(a: Bytes, b: Bytes, c: Bytes)
    requires Lower(a) == Lower(b) && CaseCmp(a, c) != Greater && CaseCmp(c, b) != Greater
    ensures Lower(c) == Lower(a)
  {
    ByteFlips(Lower(a), Lower(c));
    ByteEqual(Lower(a), Lower(c));
  }

  /** Keys that differ only in case are distinct, and the order is total. */
  lemma CaseTotal()
    ensures TotalOrder(CaseCmp)
  {
    forall a, b ensures CaseCmp(a, b) == Equal <==> a == b { ByteEqual(a, b); ByteEqual(Lower(a), Lower(b)); }
    forall a, b ensures CaseCmp(b, a) == Flip(CaseCmp(a, b)) { ByteFlips(a, b); ByteFlips(Lower(a), Lower(b)); }
    forall a, b, c | CaseCmp(a, b) != Greater && CaseCmp(b, c) != Greater ensures CaseCmp(a, c) != Greater {
      ByteChains(Lower(a), Lower(b), Lower(c));
      if ByteCmp(a, b) != Greater && ByteCmp(b, c) != Greater { ByteChains(a, b, c); }
    }
  }
}
