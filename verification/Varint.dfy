/** LEB128 varints: the fast decoder, the loop it shortcuts, and the encoder they invert. */
module Varint {
  import opened Semantics

  const U64_LIMIT: nat := 0x1_0000_0000_0000_0000
  const U32_LIMIT: nat := 0x1_0000_0000

  /** The minimal encoding. */
  function Leb(x: nat): (r: seq<Byte>)
    ensures r != []
  {
    if x < 128 then [x] else [x % 128 + 128] + Leb(x / 128)
  }

  method AppendUvarint(dst: seq<Byte>, x: nat) returns (r: seq<Byte>)
    ensures r == dst + Leb(x)
  {
    r := dst;
    var y := x;
    while y >= 128
      invariant r + Leb(y) == dst + Leb(x)
    {
      assert r + Leb(y) == (r + [y % 128 + 128]) + Leb(y / 128);
      r := r + [y % 128 + 128];
      y := y / 128;
    }
    r := r + [y];
  }

  method UvarintLen(x: nat) returns (n: nat)
    ensures n == |Leb(x)|
  {
    n := 1;
    var y := x;
    while y >= 128
      invariant n - 1 + |Leb(y)| == |Leb(x)|
    {
      y := y / 128;
      n := n + 1;
    }
  }

  /** A value and the bytes it took. */
  datatype Parsed = Parsed(value: nat, used: nat)

  /** The number the bytes spell, within `limit` of them. */
  function Spelled(b: seq<Byte>, limit: nat): (r: Option<Parsed>)
    ensures r.Some? ==> 1 <= r.value.used <= limit && r.value.used <= |b|
  {
    if b == [] || limit == 0 then None
    else if b[0] < 128 then Some(Parsed(b[0], 1))
    else
      var rest := Spelled(b[1..], limit - 1);
      if rest.None? then None else Some(Parsed(b[0] - 128 + 128 * rest.value.value, rest.value.used + 1))
  }

  function Below(r: Option<Parsed>, bound: nat): Option<Parsed>
  {
    if r.Some? && r.value.value < bound then r else None
  }

  /** A 64-bit varint: ten bytes at most, no overflow. */
  function Decoded(b: seq<Byte>): Option<Parsed>
  {
    Below(Spelled(b, 10), U64_LIMIT)
  }

  function Pow(n: nat): nat
  {
    if n == 0 then 1 else 128 * Pow(n - 1)
  }

  lemma PowTen()
    ensures Pow(9) == 0x8000_0000_0000_0000 && forall n :: 0 <= n <= 8 ==> Pow(n) <= 0x100_0000_0000_0000
  {
    assert Pow(2) == 0x4000 && Pow(4) == 0x1000_0000 && Pow(6) == 0x400_0000_0000;
    assert Pow(8) == 0x100_0000_0000_0000;
    forall n | 0 <= n <= 8 ensures Pow(n) <= Pow(8) { PowRises(n, 8); }
  }

  lemma {:induction false} PowRises(m: nat, n: nat)
    requires m <= n
    ensures 1 <= Pow(m) <= Pow(n)
  {
    if m < n { PowRises(m, n - 1); } else if n > 0 { PowRises(m - 1, n - 1); }
  }

  /** The bytes from `i` on, worth `Pow(i)` each, on top of what came before. */
  function Joined(x: nat, i: nat, rest: Option<Parsed>): Option<Parsed>
  {
    if rest.None? then None else Some(Parsed(x + Pow(i) * rest.value.value, i + rest.value.used))
  }

  lemma {:induction false} JoinStep(x: nat, i: nat, b: Byte, rest: Option<Parsed>)
    requires b >= 128
    ensures Joined(x, i, if rest.None? then None
              else Some(Parsed(b - 128 + 128 * rest.value.value, rest.value.used + 1)))
         == Joined(x + Pow(i) * (b - 128), i + 1, rest)
  {
    if rest.Some? {
      var v, p := rest.value.value, Pow(i);
      assert Pow(i + 1) == 128 * p;
      assert p * (b - 128 + 128 * v) == p * (b - 128) + (128 * p) * v;
    }
  }

  lemma ShiftFits(x: nat, i: nat, b: nat)
    requires i <= 9 && b < 128 && x < Pow(i)
    ensures x + Pow(i) * b < U64_LIMIT <==> i < 9 || b <= 1
    ensures x + Pow(i) * b < Pow(i + 1)
  {
    PowTen();
    var p := Pow(i);
    assert x + p * b < p * (b + 1);
    assert p * (b + 1) <= p * 128;
    if i == 9 && b >= 2 { assert p * b >= p * 2; }
  }

  lemma {:induction false} SlowStop(b: seq<Byte>, i: nat, x: nat)
    requires i < |b| && i < 10 && b[i] < 128
    ensures Joined(x, i, Spelled(b[i..], 10 - i)) == Some(Parsed(x + Pow(i) * b[i], i + 1))
  {
  }

  lemma SlowStep(b: seq<Byte>, i: nat, x: nat)
    requires i < |b| && i < 10 && b[i] >= 128
    ensures Joined(x, i, Spelled(b[i..], 10 - i)) ==
              Joined(x + Pow(i) * (b[i] - 128), i + 1, Spelled(b[i + 1..], 9 - i))
  {
    hide Joined;
    assert b[i..][1..] == b[i + 1..];
    JoinStep(x, i, b[i], Spelled(b[i + 1..], 9 - i));
  }

  lemma {:induction false} SlowEnd(b: seq<Byte>, i: nat, x: nat)
    requires i <= |b| && i <= 10 && (i == |b| || i == 10)
    ensures Joined(x, i, Spelled(b[i..], 10 - i)) == None
  {
  }

  /** `uvarint_slow`. */
  method UvarintSlow(b: seq<Byte>) returns (r: Option<Parsed>)
    ensures r == Decoded(b)
  {
    hide Spelled, Joined, Pow;
    var x: nat, i: nat := 0, 0;
    assert Spelled(b, 10) == Joined(x, i, Spelled(b[i..], 10 - i)) && x < Pow(0) by { JoinNothing(b); }
    while i < |b|
      invariant 0 <= i <= |b| && i <= 10 && x < Pow(i)
      invariant Spelled(b, 10) == Joined(x, i, Spelled(b[i..], 10 - i))
    {
      if i == 10 {
        SlowEnd(b, i, x);
        return None;
      }
      var byte: nat := b[i];
      ShiftFits(x, i, byte % 128);
      if byte < 128 {
        SlowStop(b, i, x);
        if i == 9 && byte > 1 {
          return None;
        }
        return Some(Parsed(x + Pow(i) * byte, i + 1));
      }
      SlowStep(b, i, x);
      x := x + Pow(i) * (byte % 128);
      i := i + 1;
    }
    SlowEnd(b, i, x);
    return None;
  }

  lemma {:induction false} JoinNothing(b: seq<Byte>)
    ensures Spelled(b, 10) == Joined(0, 0, Spelled(b[0..], 10)) && Pow(0) == 1
  {
    assert b[0..] == b;
  }

  /** Two to four bytes spelled out, least significant first. */
  function Fast(b: seq<Byte>, n: nat): nat
    requires n <= |b|
  {
    if n == 0 then 0 else var low: nat := b[0] % 128; low + 128 * Fast(b[1..], n - 1)
  }

  /** `uvarint`: one to four bytes without the loop. */
  method Uvarint(b: seq<Byte>) returns (r: Option<Parsed>)
    ensures r == Decoded(b)
  {
    if |b| == 0 { return None; }
    if b[0] < 128 { return Some(Parsed(b[0], 1)); }
    var b0: nat := b[0] % 128;
    if |b| > 1 {
      var b1: nat := b[1] % 128;
      if b[1] < 128 {
        FastSpells(b, 2);
        return Some(Parsed(b0 + 0x80 * b1, 2));
      }
      if |b| > 2 {
        var b2: nat := b[2] % 128;
        if b[2] < 128 {
          FastSpells(b, 3);
          return Some(Parsed(b0 + 0x80 * b1 + 0x4000 * b2, 3));
        }
        if |b| > 3 && b[3] < 128 {
          var b3: nat := b[3] % 128;
          FastSpells(b, 4);
          return Some(Parsed(b0 + 0x80 * b1 + 0x4000 * b2 + 0x20_0000 * b3, 4));
        }
      }
    }
    r := UvarintSlow(b);
  }

  lemma {:induction false} FastSpelled(b: seq<Byte>, n: nat, limit: nat)
    requires 1 <= n <= |b| && n <= limit && (forall i :: 0 <= i < n - 1 ==> b[i] >= 128) && b[n - 1] < 128
    ensures Spelled(b, limit) == Some(Parsed(Fast(b, n), n))
  {
    if n > 1 { FastSpelled(b[1..], n - 1, limit - 1); }
  }

  /** One byte of the shortcut. */
  lemma FastStep(b: seq<Byte>, n: nat)
    requires 0 < n <= |b|
    ensures var low: nat := b[0] % 128; Fast(b, n) == low + 128 * Fast(b[1..], n - 1)
  {
  }

  lemma {:induction false} FastSpells(b: seq<Byte>, n: nat)
    requires 2 <= n <= 4 && n <= |b| && (forall i :: 0 <= i < n - 1 ==> b[i] >= 128) && b[n - 1] < 128
    ensures Decoded(b) == Some(Parsed(Fast(b, n), n))
    ensures var b0: nat, b1: nat := b[0] % 128, b[1] % 128;
            Fast(b, n) == b0 + 0x80 * b1 + (if n > 2 then var b2: nat := b[2] % 128; 0x4000 * b2 else 0)
                        + (if n > 3 then var b3: nat := b[3] % 128; 0x20_0000 * b3 else 0)
  {
    FastSpelled(b, n, 10);
    FastStep(b, n);
    FastStep(b[1..], n - 1);
    assert b[1..][1..] == b[2..] && Fast(b[n..], 0) == 0;
    if n > 2 {
      FastStep(b[2..], n - 2);
      assert b[2..][1..] == b[3..];
    }
    if n > 3 {
      FastStep(b[3..], n - 3);
      assert b[3..][1..] == b[4..];
    }
    assert Fast(b, n) < U64_LIMIT;
  }

  /** Decoding what was written, before any suffix, gives the number and its length. */
  lemma {:induction false} SpelledLeb(x: nat, suffix: seq<Byte>, limit: nat)
    requires |Leb(x)| <= limit
    ensures Spelled(Leb(x) + suffix, limit) == Some(Parsed(x, |Leb(x)|))
  {
    if x >= 128 {
      assert (Leb(x) + suffix)[1..] == Leb(x / 128) + suffix;
      SpelledLeb(x / 128, suffix, limit - 1);
    }
  }

  lemma {:induction false} LebLength(x: nat, n: nat)
    requires x < Pow(n) && n >= 1
    ensures |Leb(x)| <= n
  {
    if x >= 128 { LebLength(x / 128, n - 1); }
  }

  lemma {:induction false} UvarintRoundTrip(x: nat, suffix: seq<Byte>)
    requires x < U64_LIMIT
    ensures Decoded(Leb(x) + suffix) == Some(Parsed(x, |Leb(x)|))
  {
    PowTen();
    assert Pow(10) == 128 * Pow(9);
    LebLength(x, 10);
    SpelledLeb(x, suffix, 10);
  }

  /** An accepted spelling is the minimal one exactly when it does not end in a zero byte
      past the first. */
  lemma {:induction false} MinimalIff(b: seq<Byte>, limit: nat)
    requires Spelled(b, limit).Some?
    ensures var r := Spelled(b, limit).value; b[..r.used] == Leb(r.value) <==> r.used == 1 || b[r.used - 1] != 0
  {
    var r := Spelled(b, limit).value;
    if b[0] >= 128 {
      var rest := Spelled(b[1..], limit - 1).value;
      MinimalIff(b[1..], limit - 1);
      assert b[1..][rest.used - 1] == b[r.used - 1];
      assert b[..r.used] == [b[0]] + b[1..][..rest.used];
      if rest.value == 0 {
        SpelledZero(b[1..], limit - 1);
      } else {
        assert r.value >= 128 && r.value / 128 == rest.value && r.value % 128 == b[0] - 128;
        assert Leb(r.value) == [b[0]] + Leb(rest.value);
        assert Leb(r.value)[1..] == Leb(rest.value) && b[..r.used][1..] == b[1..][..rest.used];
      }
    }
  }

  lemma {:induction false} SpelledZero(b: seq<Byte>, limit: nat)
    requires Spelled(b, limit).Some? && Spelled(b, limit).value.value == 0
    ensures b[Spelled(b, limit).value.used - 1] == 0
  {
    if b[0] >= 128 { SpelledZero(b[1..], limit - 1); }
  }

  /** Only the bytes of the spelling matter. */
  lemma {:induction false} SpelledPrefix(b: seq<Byte>, limit: nat, rest: seq<Byte>)
    requires Spelled(b, limit).Some?
    ensures Spelled(b[..Spelled(b, limit).value.used] + rest, limit) == Spelled(b, limit)
  {
    var n := Spelled(b, limit).value.used;
    if b[0] >= 128 {
      SpelledPrefix(b[1..], limit - 1, rest);
      assert (b[..n] + rest)[1..] == b[1..][..n - 1] + rest;
    }
  }

  /** The bytes `w` spell `n`, minimally or not. */
  predicate Spells(w: seq<Byte>, n: nat)
  {
    Decoded(w) == Some(Parsed(n, |w|))
  }

  lemma SpellsBefore(w: seq<Byte>, n: nat, rest: seq<Byte>)
    requires Spells(w, n)
    ensures Decoded(w + rest) == Some(Parsed(n, |w|))
  {
    SpelledPrefix(w, 10, rest);
    assert w[..|w|] == w;
  }

  lemma DecodedSpells(b: seq<Byte>)
    requires Decoded(b).Some?
    ensures Spells(b[..Decoded(b).value.used], Decoded(b).value.value)
  {
    var w := b[..Decoded(b).value.used];
    SpelledPrefix(b, 10, []);
    assert w + [] == w;
  }

  /** A spelling as long as the minimal one is the minimal one. */
  lemma {:induction false} ShortestSpelling(b: seq<Byte>, limit: nat)
    requires Spelled(b, limit).Some? && |Leb(Spelled(b, limit).value.value)| == Spelled(b, limit).value.used
    ensures b[..Spelled(b, limit).value.used] == Leb(Spelled(b, limit).value.value)
  {
    MinimalIff(b, limit);
    var r := Spelled(b, limit).value;
    if r.used > 1 && b[r.used - 1] == 0 {
      PaddedSmall(b, limit);
      LebLength(r.value, r.used - 1);
    }
  }

  lemma {:induction false} PaddedSmall(b: seq<Byte>, limit: nat)
    requires Spelled(b, limit).Some? && Spelled(b, limit).value.used > 1 && b[Spelled(b, limit).value.used - 1] == 0
    ensures Spelled(b, limit).value.value < Pow(Spelled(b, limit).value.used - 1)
  {
    var rest := Spelled(b[1..], limit - 1).value;
    assert Pow(1) == 128 * Pow(0) == 128;
    if rest.used > 1 {
      PaddedSmall(b[1..], limit - 1);
      assert Pow(rest.used) == 128 * Pow(rest.used - 1);
    }
  }

  // ---- zig-zag ------------------------------------------------------------------------------

  predicate IsI64(x: int)
  {
    -0x8000_0000_0000_0000 <= x < 0x8000_0000_0000_0000
  }

  /** `x << 1` in 64 bits, complemented when the sign fills the other operand. */
  function ZigZag(x: int): nat
    requires IsI64(x)
  {
    var shifted := 2 * x % U64_LIMIT;
    if x >= 0 then shifted else U64_LIMIT - 1 - shifted
  }

  /** `u >> 1`, complemented when the low bit is set. */
  function UnZigZag(u: nat): int
  {
    if u % 2 == 0 then u / 2 else -(u / 2) - 1
  }

  lemma ZigZagInverts(x: int, u: nat)
    requires IsI64(x) && u < U64_LIMIT
    ensures ZigZag(x) < U64_LIMIT && UnZigZag(ZigZag(x)) == x
    ensures IsI64(UnZigZag(u)) && ZigZag(UnZigZag(u)) == u
  {
    assert x < 0 ==> 2 * x % U64_LIMIT == 2 * x + U64_LIMIT;
  }

  /** `varint` of `append_varint`, before any suffix, for every i64. */
  lemma VarintRoundTrip(x: int, suffix: seq<Byte>)
    requires IsI64(x)
    ensures var r := Decoded(Leb(ZigZag(x)) + suffix);
            r.Some? && UnZigZag(r.value.value) == x && r.value.used == |Leb(ZigZag(x))|
  {
    ZigZagInverts(x, 0);
    UvarintRoundTrip(ZigZag(x), suffix);
  }
}
