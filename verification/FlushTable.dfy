/** Writing a sealed memtable as one L0 table. */
module FlushTable {
  import opened Semantics
  import opened Fragments
  import opened Tables
  import opened MergeInputs
  import opened Levels
  import opened Sources
  import opened Engine

  /** One table over the whole memtable, its range deletes fragmented but not clipped. */
  method Flushed(m: Mem, id: nat) returns (r: Option<Table>)
    ensures r.None? ==> forall k: Key :: Says(InMemory(m), k) == map[]
    ensures r.Some? ==> Stamped(r.value) && r.value.id == id && r.value.level == 0
    ensures r.Some? ==> r.value.maxSeq == MaxSeqOf(r.value.points) && r.value.partition == None
    ensures r.Some? ==>
              forall k: Key :: PointsOf(r.value.points, k) == PointsOf(m.points, k)
                  && CoversOf(r.value.frags, k) == SpanCovers(m.spans, k)
  {
    var points := Merged(m.points);
    var frags := FragmentSpans(m.spans, None, None);
    MergedSorted(m.points);
    forall k: Key ensures PointsOf(points, k) == PointsOf(m.points, k) { MergedPoints(m.points, k); }
    if points == [] && frags == [] {
      return None;
    }
    var lo := if points != [] then points[0].key else frags[0].start;
    var hi := if points != [] then points[|points| - 1].key else frags[|frags| - 1].end;
    var t := Table(id, 0, points, frags, lo, hi, MaxSeqOf(points), None);
    FlushedStamped(t);
    return Some(t);
  }

  lemma FlushedStamped(t: Table)
    requires Sorted(t.points) && Tidy(t.frags) && Tight(t) && t.maxSeq == MaxSeqOf(t.points)
    ensures Stamped(t)
  {
    if t.points != [] {
      forall i | 0 <= i < |t.points| ensures t.minKey <= t.points[i].key <= t.maxKey {
        assert i > 0 ==> Precedes(t.points[0], t.points[i]);
        assert i < |t.points| - 1 ==> Precedes(t.points[i], t.points[|t.points| - 1]);
      }
    }
  }

  /** A flushed memtable may be published under any unused id. */
  lemma FlushedPublishes(db: Db, r: Option<Table>, id: nat)
    requires db.imms != [] && Distinct(InMemory(db.imms[0])) && forall u :: InTree(db.levels, u) ==> u.id != id
    requires r.None? ==> forall k: Key :: Says(InMemory(db.imms[0]), k) == map[]
    requires r.Some? ==> Stamped(r.value) && r.value.id == id
    requires r.Some? ==>
               forall k: Key :: PointsOf(r.value.points, k) == PointsOf(db.imms[0].points, k)
                   && CoversOf(r.value.frags, k) == SpanCovers(db.imms[0].spans, k)
    ensures MayFlush(db, r)
  {
  }
}
