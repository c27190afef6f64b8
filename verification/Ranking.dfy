/**
 Ordering compaction candidates by exact ratios. Overlap per source byte ascends in
 `rank_candidates`; entries per tombstone ascend (densest first) in `dense_tables`.
 Both compare by cross-multiplication, then by tie-breakers.
 */
module Ranking {
  import opened Semantics
  import opened Tables
  import opened PlanSpans
  import opened Levels
  import opened Duplicates

  /** `num / den`, infinite when `den` is zero; never zero over zero. */
  datatype Candidate = Candidate(num: nat, den: nat, tie: nat, id: nat)

  predicate Proper(c: Candidate)
  {
    c.num > 0 || c.den > 0
  }

  predicate RatioLeq(a: Candidate, b: Candidate)
  {
    a.num * b.den <= b.num * a.den
  }

  /** The sort comparison: ratio, then tie-breaker, then id. */
  predicate Leq(a: Candidate, b: Candidate)
  {
    a.num * b.den < b.num * a.den
    || (a.num * b.den == b.num * a.den && (a.tie < b.tie || (a.tie == b.tie && a.id <= b.id)))
  }

  lemma Cancel(x: nat, y: nat, k: nat)
    requires k > 0
    ensures x * k <= y * k <==> x <= y
    ensures x * k < y * k <==> x < y
  {
    if x < y { assert (x + 1) * k <= y * k; } else if y < x { assert (y + 1) * k <= x * k; }
  }

  lemma Scale(x: nat, y: nat, k: nat)
    requires x <= y
    ensures x * k <= y * k
  {
  }

  /** Cross-multiplied ratios chain, strictly if either step is strict. */
  lemma RatioChains(a: Candidate, b: Candidate, c: Candidate)
    requires Proper(a) && Proper(b) && Proper(c) && RatioLeq(a, b) && RatioLeq(b, c)
    ensures RatioLeq(a, c)
    ensures a.num * c.den == c.num * a.den ==> a.num * b.den == b.num * a.den && b.num * c.den == c.num * b.den
  {
    var ab, ba, bc, cb, ac, ca := a.num * b.den, b.num * a.den, b.num * c.den, c.num * b.den, a.num * c.den,
        c.num * a.den;
    if b.den > 0 {
      Scale(ab, ba, c.den);
      Scale(bc, cb, a.den);
      assert ac * b.den == ab * c.den && ba * c.den == bc * a.den && cb * a.den == ca * b.den by { Products(a, b, c); }
      Cancel(ac, ca, b.den);
      if ac == ca {
        if c.den > 0 { Cancel(ab, ba, c.den); }
        if a.den > 0 { Cancel(bc, cb, a.den); }
        ZeroEnds(a, b, c);
      }
    } else {
      assert bc == 0 ==> c.den == 0 by { Cancel(0, c.den, b.num); }
    }
  }

  lemma Products(a: Candidate, b: Candidate, c: Candidate)
    ensures (a.num * c.den) * b.den == (a.num * b.den) * c.den
    ensures (b.num * a.den) * c.den == (b.num * c.den) * a.den
    ensures (c.num * b.den) * a.den == (c.num * a.den) * b.den
  {
    Swap(a.num, c.den, b.den);
    Swap(b.num, a.den, c.den);
    Swap(c.num, b.den, a.den);
  }

  lemma Swap(x: nat, y: nat, z: nat)
    ensures (x * y) * z == (x * z) * y
  {
    assert (x * y) * z == x * (y * z) && (x * z) * y == x * (z * y);
  }

  /** An infinite end can tie only with another infinite one. */
  lemma ZeroEnds(a: Candidate, b: Candidate, c: Candidate)
    requires Proper(a) && Proper(b) && Proper(c) && b.den > 0 && RatioLeq(a, b) && RatioLeq(b, c)
    requires a.num * c.den == c.num * a.den
    ensures c.den == 0 ==> a.num * b.den == b.num * a.den && b.num * c.den == c.num * b.den
    ensures a.den == 0 ==> a.num * b.den == b.num * a.den && b.num * c.den == c.num * b.den
  {
    if a.den == 0 {
      Cancel(a.num, 0, b.den);
    } else if c.den == 0 {
      Cancel(c.num, 0, a.den);
    }
  }

  lemma LeqChains(a: Candidate, b: Candidate, c: Candidate)
    requires Proper(a) && Proper(b) && Proper(c) && Leq(a, b) && Leq(b, c)
    ensures Leq(a, c)
  {
    RatioChains(a, b, c);
  }

  // ---- sorting --------------------------------------------------------------------------------

  predicate Ranked(cs: seq<Candidate>)
  {
    forall i, j :: 0 <= i < j < |cs| ==> Leq(cs[i], cs[j])
  }

  function Insert(cs: seq<Candidate>, c: Candidate): seq<Candidate>
  {
    if cs == [] || Leq(c, cs[0]) then [c] + cs else [cs[0]] + Insert(cs[1..], c)
  }

  function Sort(cs: seq<Candidate>): seq<Candidate>
  {
    if cs == [] then [] else Insert(Sort(cs[1..]), cs[0])
  }

  lemma {:induction false} InsertRanks(cs: seq<Candidate>, c: Candidate)
    requires Ranked(cs) && Proper(c) && forall x :: x in cs ==> Proper(x)
    ensures Ranked(Insert(cs, c)) && multiset(Insert(cs, c)) == multiset(cs) + multiset{c}
    ensures forall x :: x in Insert(cs, c) ==> x == c || x in cs
  {
    hide Leq;
    if cs == [] {
    } else if Leq(c, cs[0]) {
      forall j | 0 <= j < |cs| ensures Leq(c, cs[j]) { if j > 0 { LeqChains(c, cs[0], cs[j]); } }
    } else {
      InsertRanks(cs[1..], c);
      var rest := Insert(cs[1..], c);
      assert cs == [cs[0]] + cs[1..];
      LeqTotal(c, cs[0]);
      forall j | 0 <= j < |rest| ensures Leq(cs[0], rest[j]) {
        assert rest[j] in rest;
        if rest[j] != c { var k :| 0 <= k < |cs[1..]| && cs[1..][k] == rest[j]; }
      }
    }
  }

  lemma LeqTotal(a: Candidate, b: Candidate)
    ensures Leq(a, b) || Leq(b, a)
  {
  }

  /** The ranking is a permutation, in order of exact ratio and then tie-breakers. */
  lemma {:induction false} SortRanks(cs: seq<Candidate>)
    requires forall x :: x in cs ==> Proper(x)
    ensures Ranked(Sort(cs)) && multiset(Sort(cs)) == multiset(cs)
    ensures forall x :: x in Sort(cs) ==> x in cs
  {
    if cs == [] {
    } else {
      SortRanks(cs[1..]);
      InsertRanks(Sort(cs[1..]), cs[0]);
      assert cs == [cs[0]] + cs[1..];
    }
  }

  // ---- picking --------------------------------------------------------------------------------

  /** Bytes of the target level a job over a table's keys would rewrite, saturating. */
  function OverlapBytes(level: seq<Table>, lo: Key, hi: Key, size: Table -> nat): nat
  {
    if level == [] then 0
    else
      var rest := OverlapBytes(level[1..], lo, hi, size);
      if level[0].minKey <= hi && lo <= level[0].maxKey then Saturate(size(level[0]) + rest) else rest
  }

  function Meeting(level: seq<Table>, lo: Key, hi: Key): (r: seq<Table>)
    ensures forall t :: t in r <==> t in level && t.minKey <= hi && lo <= t.maxKey
  {
    if level == [] then []
    else (if level[0].minKey <= hi && lo <= level[0].maxKey then [level[0]] else []) + Meeting(level[1..], lo, hi)
  }

  /** Saturating as it goes, the overlap is the saturated sum over the tables that meet. */
  lemma {:induction false} OverlapExact(level: seq<Table>, lo: Key, hi: Key, size: Table -> nat)
    ensures OverlapBytes(level, lo, hi, size) == Saturate(Sum(Meeting(level, lo, hi), size))
  {
    if level == [] {
    } else {
      OverlapExact(level[1..], lo, hi, size);
      var rest := Meeting(level[1..], lo, hi);
      assert [] + rest == rest && ([level[0]] + rest)[1..] == rest;
    }
  }

  /** A candidate's score: overlap over its own bytes, the floor of one kept. */
  function Scored(t: Table, level: seq<Table>, size: Table -> nat, distance: nat): (c: Candidate)
    ensures Proper(c)
  {
    var own := size(t);
    Candidate(OverlapBytes(level, t.minKey, t.maxKey, size), if own == 0 then 1 else own, distance, t.id)
  }

  /** Steps forward from `start` around the candidate list. */
  function Cyclic(i: nat, start: nat, n: nat): nat
    requires i < n && start < n
  {
    (i + n - start) % n
  }

  lemma CyclicIs(i: nat, start: nat, n: nat)
    requires i < n && start < n
    ensures Cyclic(i, start, n) == if i >= start then i - start else i + n - start
  {
    if i >= start { ModUnique(1, n, i - start); } else { ModUnique(0, n, i + n - start); }
  }

  /** Distinct positions are at distinct cyclic distances, so the order is total. */
  lemma CyclicDistinct(i: nat, j: nat, start: nat, n: nat)
    requires i < n && j < n && start < n && Cyclic(i, start, n) == Cyclic(j, start, n)
    ensures i == j
  {
    CyclicIs(i, start, n);
    CyclicIs(j, start, n);
  }

  /** A score over the bytes of the tables it meets and its own, at least one. */
  predicate Weighs(c: Candidate, t: Table, level: seq<Table>, size: Table -> nat)
  {
    && c.id == t.id && c.den == (if size(t) < 1 then 1 else size(t))
    && c.num == Saturate(Sum(Meeting(level, t.minKey, t.maxKey), size))
  }

  lemma ScoredWeighs(t: Table, level: seq<Table>, size: Table -> nat, i: nat, first: nat, n: nat)
    requires i < n && first < n
    ensures Weighs(Scored(t, level, size, Cyclic(i, first, n)), t, level, size)
    ensures Scored(t, level, size, Cyclic(i, first, n)).tie == if i >= first then i - first else i + n - first
  {
    hide Cyclic, OverlapBytes, Meeting;
    OverlapExact(level, t.minKey, t.maxKey, size);
    CyclicIs(i, first, n);
  }

  /** `rank_candidates`: the scores of all candidates, in order. */
  method RankCandidates(tables: seq<Table>, level: seq<Table>, size: Table -> nat, start: nat)
    returns (order: seq<Candidate>, ghost scores: seq<Candidate>)
    ensures |scores| == |tables| && multiset(order) == multiset(scores) && Ranked(order)
    ensures forall i :: 0 <= i < |tables| ==> Weighs(scores[i], tables[i], level, size)
    ensures forall i :: 0 <= i < |tables| ==>
              var first := start % |tables|; scores[i].tie == if i >= first then i - first else i + |tables| - first
  {
    hide Scored, Weighs, Cyclic;
    var n := |tables|;
    if n == 0 { return [], []; }
    var first := start % n;
    order, scores := RankFrom(tables, level, size, first);
  }

  method RankFrom(tables: seq<Table>, level: seq<Table>, size: Table -> nat, first: nat)
    returns (order: seq<Candidate>, ghost scores: seq<Candidate>)
    requires first < |tables|
    ensures |scores| == |tables| && multiset(order) == multiset(scores) && Ranked(order)
    ensures forall i :: 0 <= i < |tables| ==> Weighs(scores[i], tables[i], level, size)
    ensures forall i :: 0 <= i < |tables| ==> scores[i].tie == if i >= first then i - first else i + |tables| - first
  {
    hide Scored, Weighs, Cyclic, Ranked;
    var n := |tables|;
    var cs: seq<Candidate> := [];
    var i := 0;
    while i < n
      invariant 0 <= i <= n && |cs| == i && forall x :: x in cs ==> Proper(x)
      invariant forall j :: 0 <= j < i ==> Weighs(cs[j], tables[j], level, size)
      invariant forall j :: 0 <= j < i ==> cs[j].tie == if j >= first then j - first else j + n - first
    {
      ScoredWeighs(tables[i], level, size, i, first, n);
      cs := cs + [Scored(tables[i], level, size, Cyclic(i, first, n))];
      i := i + 1;
    }
    SortRanks(cs);
    return Sort(cs), cs;
  }

  // ---- density --------------------------------------------------------------------------------

  /** What the density pass asks of a table: its counts, the settings and the pass's floor. */
  datatype Density = Density(tombs: Table -> nat, entries: Table -> nat, foreign: Table -> bool,
                             trigger: real, minEntries: nat, oldest: nat, passFloor: nat)

  /** At or past the trigger, ours, and at the bottom one that a rewrite could thin out. */
  predicate Eligible(d: Density, t: Table, bottom: bool)
  {
    && d.entries(t) > 0 && d.entries(t) >= d.minEntries
    && d.tombs(t) as real >= d.trigger * d.entries(t) as real
    && !d.foreign(t) && !(bottom && (t.maxSeq > d.oldest || t.id >= d.passFloor))
  }

  /** Entries per tombstone, then level, then id. */
  function DenseScore(d: Density, t: Table, level: nat): Candidate
  {
    Candidate(d.entries(t), d.tombs(t), level, t.id)
  }

  function DenseIn(d: Density, ts: seq<Table>, level: nat, bottom: bool): seq<Candidate>
  {
    if ts == [] then []
    else DenseIn(d, ts[..|ts| - 1], level, bottom)
         + if Eligible(d, ts[|ts| - 1], bottom) then [DenseScore(d, ts[|ts| - 1], level)] else []
  }

  function DenseBelow(d: Density, levels: Tree, upto: nat): seq<Candidate>
    requires upto <= |levels|
  {
    if upto == 0 then []
    else DenseBelow(d, levels, upto - 1) + DenseIn(d, levels[upto - 1], upto - 1, TargetIsBottom(levels, upto - 1))
  }

  lemma {:induction false} DenseInIff(d: Density, ts: seq<Table>, level: nat, bottom: bool, c: Candidate)
    ensures c in DenseIn(d, ts, level, bottom) <==>
              exists t :: t in ts && Eligible(d, t, bottom) && c == DenseScore(d, t, level)
  {
    if ts == [] {
    } else {
      var init, t := ts[..|ts| - 1], ts[|ts| - 1];
      DenseInIff(d, init, level, bottom, c);
      assert ts == init + [t];
    }
  }

  /** The candidates are the eligible tables of every level. */
  lemma {:induction false} DenseIff(d: Density, levels: Tree, upto: nat, c: Candidate)
    requires upto <= |levels|
    ensures c in DenseBelow(d, levels, upto) <==>
            exists l: nat, t :: l < upto && t in levels[l] && Eligible(d, t, TargetIsBottom(levels, l))
                && c == DenseScore(d, t, l)
  {
    if upto == 0 {
    } else {
      var l := upto - 1;
      DenseIff(d, levels, l, c);
      DenseInIff(d, levels[l], l, TargetIsBottom(levels, l), c);
    }
  }

  method CollectDense(d: Density, ts: seq<Table>, level: nat, bottom: bool) returns (cs: seq<Candidate>)
    ensures cs == DenseIn(d, ts, level, bottom)
  {
    cs := [];
    var i := 0;
    while i < |ts|
      invariant 0 <= i <= |ts| && cs == DenseIn(d, ts[..i], level, bottom)
    {
      assert ts[..i + 1][..i] == ts[..i];
      if Eligible(d, ts[i], bottom) { cs := cs + [DenseScore(d, ts[i], level)]; }
      i := i + 1;
    }
    assert ts[..i] == ts;
  }

  lemma LeqDenser(a: Candidate, b: Candidate)
    requires Leq(a, b)
    ensures b.den * a.num <= a.den * b.num
  {
  }

  lemma {:induction false} DenseProper(d: Density, levels: Tree, c: Candidate)
    requires c in DenseBelow(d, levels, |levels|)
    ensures Proper(c)
  {
    DenseIff(d, levels, |levels|, c);
  }

  /** `dense_tables`: every eligible table once, densest first, ties to the shallower level
      and then to the lower id. */
  method DenseTables(d: Density, levels: Tree) returns (order: seq<Candidate>)
    ensures multiset(order) == multiset(DenseBelow(d, levels, |levels|)) && Ranked(order)
    ensures forall i, j :: 0 <= i < j < |order| ==> order[j].den * order[i].num <= order[i].den * order[j].num
  {
    hide Leq, Proper, Eligible, DenseIn;
    var cs: seq<Candidate> := [];
    var l := 0;
    while l < |levels|
      invariant 0 <= l <= |levels| && cs == DenseBelow(d, levels, l)
    {
      var more := CollectDense(d, levels[l], l, TargetIsBottom(levels, l));
      cs := cs + more;
      l := l + 1;
    }
    forall c | c in cs ensures Proper(c) { DenseProper(d, levels, c); }
    SortRanks(cs);
    order := Sort(cs);
    forall i, j | 0 <= i < j < |order| ensures order[j].den * order[i].num <= order[i].den * order[j].num {
      LeqDenser(order[i], order[j]);
    }
  }

  /** The sweep takes the first candidate that is not vetoed: the best of all usable ones. */
  method FirstUsable(order: seq<Candidate>, usable: Candidate -> bool) returns (r: Option<Candidate>)
    requires Ranked(order)
    ensures r.None? <==> forall c :: c in order ==> !usable(c)
    ensures r.Some? ==> r.value in order && usable(r.value) && forall c :: c in order && usable(c) ==>
              c == r.value || Leq(r.value, c)
  {
    var i := 0;
    while i < |order|
      invariant 0 <= i <= |order| && forall k :: 0 <= k < i ==> !usable(order[k])
    {
      if usable(order[i]) { return Some(order[i]); }
      i := i + 1;
    }
    return None;
  }
}
