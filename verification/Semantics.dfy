/**
 The meaning of a read.

 One key's content is a history: its versions by sequence number. A range delete
 that covers the key is a tombstone at its own sequence. Reading at sequence `s`
 walks the history down from `s`, collects merge operands, and stops at the first
 base. Everything else in this project is measured against this walk.
 */
module Semantics {

  /** The rank of a user key under the family's comparator. Byte strings are
      countable, so every total order on them embeds in the reals; the engine only
      ever compares keys, never looks inside them. */
  type Key = real

  type Byte = b: int | 0 <= b < 256
  type Value = seq<Byte>

  datatype Option<+T> = None | Some(value: T)

  /** What one version of a key says. Operands carry no TTL. */
  datatype Entry =
    | Put(value: Value, ttl: int)
    | Tombstone(single: bool)
    | Operand(value: Value)

  datatype Version = Version(key: Key, seqno: nat, entry: Entry)

  type History = map<nat, Entry>

  /** Where a walk stopped: ran out of history, met a delete, or met a put. */
  datatype Base = Missing | Deleted | Live(value: Value, ttl: int)

  /** Operands newest first, over the base that ended the walk. */
  datatype Chain = Chain(operands: seq<Value>, base: Base)

  datatype Outcome = Found(value: Value) | NotFound | Corrupt

  /** `full_merge`: operands oldest first; `None` is the operator's error. */
  type MergeOp = (Key, Option<Value>, seq<Value>) -> Option<Value>

  /** The reader of one key at one clock reading. */
  datatype Reader = Reader(op: MergeOp, key: Key, now: int)

  /** Folding a prefix of the operands first changes nothing, once that prefix folds. */
  ghost predicate Associative(op: MergeOp)
  {
    forall k: Key, base: Option<Value>, older: seq<Value>, newer: seq<Value> ::
      older != [] && newer != [] && op(k, base, older).Some? ==>
        op(k, base, older + newer) == op(k, Some(op(k, base, older).value), newer)
  }

  predicate Expired(ttl: int, now: int)
  {
    ttl != 0 && ttl <= now
  }

  function BaseOf(e: Entry): Base
    requires !e.Operand?
  {
    match e
    case Put(value, ttl) => Live(value, ttl)
    case Tombstone(_) => Deleted
  }

  function Push(operands: seq<Value>, c: Chain): Chain
  {
    Chain(operands + c.operands, c.base)
  }

  /** One version on top of a chain: an operand joins it, anything else replaces it. */
  function Above(e: Entry, below: Chain): Chain
  {
    if e.Operand? then Push([e.value], below) else Chain([], BaseOf(e))
  }

  function Walk(h: History, n: int): Chain
    decreases n + 1
  {
    if n < 0 then Chain([], Missing)
    else if n in h then Above(h[n], Walk(h, n - 1))
    else Walk(h, n - 1)
  }

  function Reversed<T>(s: seq<T>): seq<T>
  {
    if s == [] then [] else Reversed(s[1..]) + [s[0]]
  }

  function Existing(base: Base, now: int): Option<Value>
  {
    if base.Live? && !Expired(base.ttl, now) then Some(base.value) else None
  }

  function Resolve(r: Reader, c: Chain): Outcome
  {
    var existing := Existing(c.base, r.now);
    if c.operands == [] then
      if existing.Some? then Found(existing.value) else NotFound
    else
      var folded := (r.op)(r.key, existing, Reversed(c.operands));
      if folded.Some? then Found(folded.value) else Corrupt
  }

  /** The reference read. */
  function Read(r: Reader, h: History, s: nat): Outcome
  {
    Resolve(r, Walk(h, s))
  }

  function ResolveUnder(r: Reader, newer: seq<Value>, c: Chain): Outcome
  {
    Resolve(r, Push(newer, c))
  }

  /** Two chains no reader can tell apart, whatever newer operands sit on top. */
  ghost predicate Equiv(r: Reader, c: Chain, d: Chain)
  {
    forall newer: seq<Value> :: ResolveUnder(r, newer, c) == ResolveUnder(r, newer, d)
  }

  lemma EquivResolves(r: Reader, c: Chain, d: Chain)
    requires Equiv(r, c, d)
    ensures Resolve(r, c) == Resolve(r, d)
  {
    assert ResolveUnder(r, [], c) == ResolveUnder(r, [], d);
    assert Push([], c) == c && Push([], d) == d;
  }

  lemma EquivPush(r: Reader, top: seq<Value>, c: Chain, d: Chain)
    requires Equiv(r, c, d)
    ensures Equiv(r, Push(top, c), Push(top, d))
  {
    hide ResolveUnder, Push;
    forall newer: seq<Value>
      ensures ResolveUnder(r, newer, Push(top, c)) == ResolveUnder(r, newer, Push(top, d))
    {
      UnderPush(r, newer, top, c);
      UnderPush(r, newer, top, d);
      assert ResolveUnder(r, newer + top, c) == ResolveUnder(r, newer + top, d);
    }
  }

  lemma UnderPush(r: Reader, newer: seq<Value>, top: seq<Value>, c: Chain)
    ensures ResolveUnder(r, newer, Push(top, c)) == ResolveUnder(r, newer + top, c)
  {
    assert Push(newer, Push(top, c)) == Push(newer + top, c);
  }

  lemma EquivAbove(r: Reader, e: Entry, c: Chain, d: Chain)
    requires Equiv(r, c, d)
    ensures Equiv(r, Above(e, c), Above(e, d))
  {
    if e.Operand? { EquivPush(r, [e.value], c, d); }
  }

  /** Bases that expose the same existing value are interchangeable. */
  lemma EquivBases(r: Reader, operands: seq<Value>, a: Base, b: Base)
    requires Existing(a, r.now) == Existing(b, r.now)
    ensures Equiv(r, Chain(operands, a), Chain(operands, b))
  {
  }

  lemma {:induction false} ReversedConcat<T>(a: seq<T>, b: seq<T>)
    ensures Reversed(a + b) == Reversed(b) + Reversed(a)
  {
    if a == [] {
      assert a + b == b;
    } else {
      assert (a + b)[1..] == a[1..] + b;
      ReversedConcat(a[1..], b);
    }
  }

  lemma {:induction false} ReversedIn<T>(s: seq<T>, x: T)
    ensures x in Reversed(s) <==> x in s
  {
    if s == [] {
    } else {
      ReversedIn(s[1..], x);
      assert s == [s[0]] + s[1..];
    }
  }

  lemma {:induction false} ReversedEmpty<T>(a: seq<T>)
    ensures Reversed(a) == [] <==> a == []
  {
  }

  /** A folded chain reads like the chain it replaced, under any newer operands. */
  lemma {:induction false} FoldEquiv(r: Reader, operands: seq<Value>, base: Base, folded: Value)
    requires Associative(r.op)
    requires operands != []
    requires (r.op)(r.key, Existing(base, r.now), Reversed(operands)) == Some(folded)
    ensures Equiv(r, Chain(operands, base), Chain([], Live(folded, 0)))
  {
    var existing := Existing(base, r.now);
    ReversedEmpty(operands);
    forall newer: seq<Value>
      ensures ResolveUnder(r, newer, Chain(operands, base))
           == ResolveUnder(r, newer, Chain([], Live(folded, 0)))
    {
      assert newer + [] == newer;
      if newer == [] {
        assert newer + operands == operands;
      } else {
        ReversedEmpty(newer);
        ReversedConcat(newer, operands);
        assert (r.op)(r.key, existing, Reversed(operands) + Reversed(newer))
            == (r.op)(r.key, Some(folded), Reversed(newer));
      }
    }
  }

  // ---- range deletes over a key ------------------------------------------------

  /** `r` is the greatest member of `covers` at or below `s`. */
  ghost predicate NewestAtMost(r: Option<nat>, covers: set<nat>, s: nat)
  {
    match r
    case None => forall c :: c in covers ==> c > s
    case Some(m) => m in covers && m <= s && forall c :: c in covers && c <= s ==> c <= m
  }

  lemma NewestUnique(a: Option<nat>, b: Option<nat>, covers: set<nat>, s: nat)
    requires NewestAtMost(a, covers, s) && NewestAtMost(b, covers, s)
    ensures a == b
  {
  }

  /** Range deletes join a key's history as tombstones at their sequences. */
  function Overlay(points: History, covers: set<nat>): History
  {
    points + map c | c in covers :: Tombstone(false)
  }

  // ---- the history a version list gives a key ----------------------------------

  /** The versions of `k` in a list; the first copy of a sequence wins. */
  function PointsOf(vs: seq<Version>, k: Key): History
  {
    if vs == [] then map[]
    else
      var rest := PointsOf(vs[1..], k);
      if vs[0].key == k then rest[vs[0].seqno := vs[0].entry] else rest
  }

  lemma PointsWitness(vs: seq<Version>, k: Key, n: nat) returns (i: nat)
    requires n in PointsOf(vs, k)
    ensures i < |vs| && vs[i] == Version(k, n, PointsOf(vs, k)[n])
  {
    if vs[0].key == k && vs[0].seqno == n {
      i := 0;
    } else {
      var j := PointsWitness(vs[1..], k, n);
      i := j + 1;
    }
  }

  lemma {:induction false} PointsMember(vs: seq<Version>, k: Key, i: nat)
    requires i < |vs| && vs[i].key == k
    ensures vs[i].seqno in PointsOf(vs, k)
  {
    if i == 0 {
    } else {
      PointsMember(vs[1..], k, i - 1);
    }
  }

  lemma {:induction false} PointsConcat(a: seq<Version>, b: seq<Version>, k: Key)
    ensures PointsOf(a + b, k) == PointsOf(b, k) + PointsOf(a, k)
  {
    if a == [] {
      assert a + b == b;
    } else {
      assert (a + b)[1..] == a[1..] + b;
      PointsConcat(a[1..], b, k);
    }
  }

  // ---- walking a history ------------------------------------------------------

  lemma {:induction false} WalkSkip(h: History, lo: int, hi: int)
    requires -1 <= lo <= hi
    requires forall n :: lo < n <= hi ==> n !in h
    ensures Walk(h, hi) == Walk(h, lo)
    decreases hi - lo
  {
    if lo < hi { WalkSkip(h, lo, hi - 1); }
  }

  /** The two histories hold the same entries at sequences in `(lo, hi]`. */
  ghost predicate SameBetween(g: History, h: History, lo: int, hi: int)
  {
    forall n: nat :: lo < n <= hi ==> (n in g <==> n in h) && (n in g ==> g[n] == h[n])
  }

  lemma {:induction false} WalkAgree(g: History, h: History, n: int)
    requires SameBetween(g, h, -1, n)
    ensures Walk(g, n) == Walk(h, n)
    decreases n + 1
  {
    if n >= 0 { WalkAgree(g, h, n - 1); }
  }

  /** Histories that agree above `floor` and are equivalent at it stay equivalent. */
  lemma {:induction false} WalkEquivAbove(r: Reader, g: History, h: History, floor: int, n: int)
    requires -1 <= floor <= n
    requires Equiv(r, Walk(g, floor), Walk(h, floor))
    requires SameBetween(g, h, floor, n)
    ensures Equiv(r, Walk(g, n), Walk(h, n))
    decreases n - floor
  {
    if floor < n {
      WalkEquivAbove(r, g, h, floor, n - 1);
      if n in g { EquivAbove(r, g[n], Walk(g, n - 1), Walk(h, n - 1)); }
    }
  }
}
