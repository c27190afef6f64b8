/**
 Finding a key in a sorted level: the binary search, the gap owner, and exactly which
 levels they serve.
 */
module Lookup {
  import opened Semantics
  import opened Fragments
  import opened Tables

  /** How many leading tables end below `k`. */
  function Landing(level: seq<Table>, k: Key): (lo: nat)
    ensures lo <= |level| && (forall i :: 0 <= i < lo ==> level[i].maxKey < k)
    ensures lo < |level| ==> level[lo].maxKey >= k
  {
    if level == [] || level[0].maxKey >= k then 0 else 1 + Landing(level[1..], k)
  }

  predicate EndsAscend(level: seq<Table>)
  {
    forall i, j :: 0 <= i < j < |level| ==> level[i].maxKey <= level[j].maxKey
  }

  function Hit(level: seq<Table>, k: Key): Option<nat>
  {
    var lo := Landing(level, k);
    if lo < |level| && level[lo].minKey <= k then Some(lo) else None
  }

  /** `find_overlapping_at`. */
  method FindOverlappingAt(level: seq<Table>, k: Key) returns (hit: Option<nat>, lo: nat)
    requires EndsAscend(level)
    ensures lo == Landing(level, k) && hit == Hit(level, k)
  {
    var hi := |level|;
    lo := 0;
    while lo < hi
      invariant lo <= hi <= |level|
      invariant forall i :: 0 <= i < lo ==> level[i].maxKey < k
      invariant forall i :: hi <= i < |level| ==> level[i].maxKey >= k
    {
      var mid := (lo + hi) / 2;
      if level[mid].maxKey < k {
        lo := mid + 1;
      } else {
        hi := mid;
      }
    }
    hit := if lo < |level| && level[lo].minKey <= k then Some(lo) else None;
  }

  /** `gap_owner`: the table left of the point candidate, if its fragments reach `k`. */
  function GapOwner(level: seq<Table>, k: Key, point: Option<nat>, lo: nat): Option<nat>
    requires lo <= |level| && (point.Some? ==> point.value < |level|)
  {
    var from := if point.Some? then point.value else lo;
    if from == 0 || !HasRanges(level[from - 1]) then None
    else if k < RangeMax(level[from - 1]) then Some(from - 1)
    else None
  }

  function Gap(level: seq<Table>, k: Key): Option<nat>
  {
    GapOwner(level, k, Hit(level, k), Landing(level, k))
  }

  /** The lookup consults every table that says something about `k`. */
  ghost predicate Finds(level: seq<Table>, k: Key)
  {
    forall i :: 0 <= i < |level| ==>
      && (PointsOf(level[i].points, k) != map[] ==> Hit(level, k) == Some(i))
      && (CoversOf(level[i].frags, k) != {} ==> Hit(level, k) == Some(i) || Gap(level, k) == Some(i))
  }

  /** No fragment starts before its table's first key, and no table ends where the next
      begins. */
  predicate Searchable(level: seq<Table>)
  {
    && (forall i :: 0 <= i < |level| ==> StartsAtFirstKey(level[i]))
    && (forall i, j :: 0 <= i < j < |level| ==> level[i].maxKey < level[j].minKey)
  }

  predicate StartsAtFirstKey(t: Table)
  {
    HasRanges(t) ==> t.minKey <= RangeMin(t)
  }

  lemma BelowEnds(a: Table, b: Table)
    requires WellFormed(a) && WellFormed(b) && Tight(a) && SpanBelow(a, b)
    ensures a.maxKey <= SpanMin(b) <= b.minKey
  {
  }

  lemma LevelEnds(level: seq<Table>)
    requires LevelOk(level)
    ensures EndsAscend(level)
  {
    forall i, j | 0 <= i < j < |level| ensures level[i].maxKey <= level[j].maxKey { BelowEnds(level[i], level[j]); }
  }

  lemma {:induction false} LandsAt(level: seq<Table>, k: Key, i: nat)
    requires i <= |level| && (forall j :: 0 <= j < i ==> level[j].maxKey < k) && (i < |level| ==> k <= level[i].maxKey)
    ensures Landing(level, k) == i
  {
  }

  /** The search hits the one table whose points hold the key. */
  lemma {:induction false} PointHit(level: seq<Table>, k: Key, i: nat)
    requires LevelOk(level) && Searchable(level) && i < |level| && PointsOf(level[i].points, k) != map[]
    ensures Hit(level, k) == Some(i)
  {
    var n :| n in PointsOf(level[i].points, k);
    var p := PointsWitness(level[i].points, k, n);
    LandsAt(level, k, i);
  }

  lemma {:induction false} CoverSpans(t: Table, k: Key)
    requires WellFormed(t) && CoversOf(t.frags, k) != {}
    ensures HasRanges(t) && RangeMin(t) <= k < RangeMax(t)
  {
    var c :| c in CoversOf(t.frags, k);
    var f := CoverWitness(t.frags, k, c);
  }

  /** Past a table's last point but inside its fragments, it is the gap owner. */
  lemma GapFound(level: seq<Table>, k: Key, i: nat)
    requires LevelOk(level) && Searchable(level) && i < |level| && HasRanges(level[i])
    requires level[i].maxKey < k < RangeMax(level[i])
    ensures Gap(level, k) == Some(i)
  {
    forall j | 0 <= j <= i ensures level[j].maxKey < k {
      if j < i { assert level[j].maxKey < level[i].minKey; }
    }
    if i + 1 < |level| {
      var next := level[i + 1];
      assert SpanBelow(level[i], next) && StartsAtFirstKey(next);
      assert k < next.minKey;
    }
    LandsAt(level, k, i + 1);
  }

  /** A table with a fragment over the key is the hit or the gap owner. */
  lemma {:induction false} CoverFound(level: seq<Table>, k: Key, i: nat)
    requires LevelOk(level) && Searchable(level) && i < |level| && CoversOf(level[i].frags, k) != {}
    ensures Hit(level, k) == Some(i) || Gap(level, k) == Some(i)
  {
    CoverSpans(level[i], k);
    assert StartsAtFirstKey(level[i]);
    if k <= level[i].maxKey {
      LandsAt(level, k, i);
    } else {
      GapFound(level, k, i);
    }
  }

  lemma SearchableFinds(level: seq<Table>, k: Key)
    requires LevelOk(level) && Searchable(level)
    ensures Finds(level, k)
  {
    forall i | 0 <= i < |level| && PointsOf(level[i].points, k) != map[] ensures Hit(level, k) == Some(i) {
      PointHit(level, k, i);
    }
    forall i | 0 <= i < |level| && CoversOf(level[i].frags, k) != {}
      ensures Hit(level, k) == Some(i) || Gap(level, k) == Some(i)
    {
      CoverFound(level, k, i);
    }
  }

  /** A fragment that starts before its table's first key is missed where it starts. */
  lemma EarlyFragmentMissed(level: seq<Table>, i: nat)
    requires LevelOk(level) && i < |level| && HasRanges(level[i]) && RangeMin(level[i]) < level[i].minKey
    ensures !Finds(level, RangeMin(level[i]))
  {
    var k := RangeMin(level[i]);
    CoversAt(level[i].frags, 0, k);
    assert level[i].frags[0].seqs[0] in CoversOf(level[i].frags, k);
    forall j | 0 <= j < i ensures level[j].maxKey <= k { BelowEnds(level[j], level[i]); }
    assert Landing(level, k) <= i;
  }

  /** A table that ends where a later one begins hides the later one's first key. */
  lemma TouchingEndsMissed(level: seq<Table>, i: nat, j: nat)
    requires LevelOk(level) && i < j < |level| && level[j].minKey <= level[i].maxKey
    ensures !Finds(level, level[j].minKey)
  {
    hide Landing;
    var k := level[j].minKey;
    assert Landing(level, k) <= i;
    if level[j].points != [] {
      PointsMember(level[j].points, k, 0);
    } else {
      CoversAt(level[j].frags, 0, k);
      assert level[j].frags[0].seqs[0] in CoversOf(level[j].frags, k);
    }
  }

  lemma OthersMiss(level: seq<Table>) returns (k: Key)
    requires LevelOk(level) && !Searchable(level)
    ensures !Finds(level, k)
  {
    if i :| 0 <= i < |level| && !StartsAtFirstKey(level[i]) {
      EarlyFragmentMissed(level, i);
      k := RangeMin(level[i]);
    } else {
      var i, j :| 0 <= i < j < |level| && level[i].maxKey >= level[j].minKey;
      TouchingEndsMissed(level, i, j);
      k := level[j].minKey;
    }
  }

  /** Exactly the searchable levels serve every lookup. */
  lemma LookupExact(level: seq<Table>)
    requires LevelOk(level)
    ensures Searchable(level) <==> forall k: Key :: Finds(level, k)
  {
    if Searchable(level) {
      forall k: Key ensures Finds(level, k) { SearchableFinds(level, k); }
    } else {
      var k := OthersMiss(level);
    }
  }

  /** A level that holds no range delete serves every lookup. */
  lemma RangeFreeServes(level: seq<Table>, k: Key)
    requires LevelOk(level) && forall i :: 0 <= i < |level| ==> !HasRanges(level[i])
    ensures Finds(level, k)
  {
    forall i, j | 0 <= i < j < |level| ensures level[i].maxKey < level[j].minKey {
      assert SpanBelow(level[i], level[j]);
    }
    SearchableFinds(level, k);
  }
}
