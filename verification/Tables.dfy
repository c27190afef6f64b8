/** SSTables as the engine sees them: sorted versions, tidy fragments, catalog bounds. */
module Tables {
  import opened Semantics
  import opened Fragments

  /** Internal order: user key ascending, then sequence descending. */
  predicate Precedes(a: Version, b: Version)
  {
    a.key < b.key || (a.key == b.key && a.seqno > b.seqno)
  }

  predicate Sorted(vs: seq<Version>)
  {
    forall i, j :: 0 <= i < j < |vs| ==> Precedes(vs[i], vs[j])
  }

  datatype Table = Table(id: nat, level: nat, points: seq<Version>, frags: seq<Fragment>,
                         minKey: Key, maxKey: Key, maxSeq: nat, partition: Option<nat>)

  predicate HasRanges(t: Table) { t.frags != [] }

  function RangeMin(t: Table): Key
    requires HasRanges(t)
  {
    t.frags[0].start
  }

  /** Exclusive, like a fragment's end. */
  function RangeMax(t: Table): Key
    requires HasRanges(t)
  {
    t.frags[|t.frags| - 1].end
  }

  function SpanMin(t: Table): Key
  {
    if HasRanges(t) && RangeMin(t) < t.minKey then RangeMin(t) else t.minKey
  }

  function SpanMax(t: Table): Key
  {
    if HasRanges(t) && RangeMax(t) > t.maxKey then RangeMax(t) else t.maxKey
  }

  /** What every table on disk satisfies. */
  ghost predicate WellFormed(t: Table)
  {
    && Sorted(t.points) && Tidy(t.frags)
    && t.minKey <= t.maxKey
    && (forall i :: 0 <= i < |t.points| ==> t.minKey <= t.points[i].key <= t.maxKey && t.points[i].seqno <= t.maxSeq)
  }

  /** The table says something about `k`. */
  ghost predicate Touches(t: Table, k: Key)
  {
    PointsOf(t.points, k) != map[] || CoversOf(t.frags, k) != {}
  }

  function MaxSeqOf(vs: seq<Version>): (m: nat)
    ensures forall i :: 0 <= i < |vs| ==> vs[i].seqno <= m
  {
    if vs == [] then 0
    else
      var m := MaxSeqOf(vs[1..]);
      if vs[0].seqno > m then vs[0].seqno else m
  }

  /** Points and coverage of several tables, earlier tables first. */
  function AllPoints(ts: seq<Table>): seq<Version>
  {
    if ts == [] then [] else ts[0].points + AllPoints(ts[1..])
  }

  function AllCovers(ts: seq<Table>, k: Key): set<nat>
  {
    if ts == [] then {} else CoversOf(ts[0].frags, k) + AllCovers(ts[1..], k)
  }

  lemma {:induction false} AllPointsConcat(a: seq<Table>, b: seq<Table>)
    ensures AllPoints(a + b) == AllPoints(a) + AllPoints(b)
  {
    if a == [] {
      assert a + b == b;
    } else {
      assert (a + b)[1..] == a[1..] + b;
      AllPointsConcat(a[1..], b);
    }
  }

  lemma {:induction false} AllCoversConcat(a: seq<Table>, b: seq<Table>, k: Key)
    ensures AllCovers(a + b, k) == AllCovers(a, k) + AllCovers(b, k)
  {
    if a == [] {
      assert a + b == b;
    } else {
      assert (a + b)[1..] == a[1..] + b;
      AllCoversConcat(a[1..], b, k);
    }
  }

  lemma SpanBounds(t: Table, k: Key)
    requires WellFormed(t) && Touches(t, k)
    ensures SpanMin(t) <= k <= SpanMax(t)
  {
    if PointsOf(t.points, k) != map[] {
      var n :| n in PointsOf(t.points, k);
      var i := PointsWitness(t.points, k, n);
    } else {
      var c :| c in CoversOf(t.frags, k);
      var i := CoverWitness(t.frags, k, c);
    }
  }

  // ---- sorted levels -----------------------------------------------------------------

  /** Catalog bounds as a compaction stamps them: the first and last point key, or the
      fragments' own bounds when the table holds no point. */
  predicate Tight(t: Table)
  {
    if t.points != [] then t.minKey == t.points[0].key && t.maxKey == t.points[|t.points| - 1].key
    else HasRanges(t) && t.minKey == RangeMin(t) && t.maxKey == RangeMax(t)
  }

  /** Everything `a` says is about keys below everything `b` says. */
  predicate SpanBelow(a: Table, b: Table)
  {
    && (a.points != [] ==> a.maxKey < SpanMin(b))
    && (HasRanges(a) ==> RangeMax(a) <= SpanMin(b))
  }

  /** A level below L0: tables in key order, no key in two of them. */
  ghost predicate LevelOk(level: seq<Table>)
  {
    && (forall i :: 0 <= i < |level| ==> WellFormed(level[i]) && Tight(level[i]))
    && (forall i, j :: 0 <= i < j < |level| ==> SpanBelow(level[i], level[j]))
  }

  lemma BelowTouched(a: Table, b: Table, k: Key)
    requires WellFormed(a) && SpanBelow(a, b) && Touches(a, k)
    ensures k < SpanMin(b)
  {
    if PointsOf(a.points, k) != map[] {
      var n :| n in PointsOf(a.points, k);
      var i := PointsWitness(a.points, k, n);
    } else {
      var c :| c in CoversOf(a.frags, k);
      var i := CoverWitness(a.frags, k, c);
    }
  }

  lemma FragmentTouches(t: Table, i: nat, k: Key)
    requires WellFormed(t) && i < |t.frags| && t.frags[i].start <= k < t.frags[i].end
    ensures Touches(t, k)
  {
    CoversAt(t.frags, i, k);
    assert t.frags[i].seqs[0] in Elements(t.frags[i].seqs);
  }

  /** A tight table says something about its lowest key. */
  lemma TouchesSpanMin(t: Table)
    requires WellFormed(t) && Tight(t)
    ensures Touches(t, SpanMin(t))
  {
    if HasRanges(t) && RangeMin(t) <= t.minKey {
      FragmentTouches(t, 0, RangeMin(t));
    } else {
      PointsMember(t.points, t.minKey, 0);
    }
  }

  lemma TouchesMaxKey(t: Table)
    requires WellFormed(t) && Tight(t) && t.points != []
    ensures Touches(t, t.maxKey)
  {
    PointsMember(t.points, t.maxKey, |t.points| - 1);
  }
}
