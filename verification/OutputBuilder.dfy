/**
 `CompactionOutputBuilder`: cuts one job span's output into tables by size and
 partition, and gives each table the slice of the range fragments it owns.
 */
module OutputBuilder {
  import opened Semantics
  import opened Fragments
  import opened Tables

  /** A partition resolver: a name and a boundary prefix per key. */
  datatype Partitioner = Partitioner(name: Key -> Option<nat>, boundary: Key -> Option<Key>)

  function NameOf(p: Option<Partitioner>, k: Key): Option<nat>
  {
    if p.None? then None else p.value.name(k)
  }

  function BoundaryOf(p: Option<Partitioner>, k: Key): Option<Key>
  {
    if p.None? then None else p.value.boundary(k)
  }

  datatype CurrentOutput = CurrentOutput(points: seq<Version>, bytes: nat, partition: Option<nat>)

  /** A finished table with points: catalog bounds are its first and last key, and
      every key in it belongs to one partition. */
  ghost predicate PointFile(t: Table, p: Option<Partitioner>)
  {
    && t.points != []
    && t.minKey == t.points[0].key && t.maxKey == t.points[|t.points| - 1].key
    && t.maxSeq == MaxSeqOf(t.points)
    && (forall i :: 0 <= i < |t.points| ==> NameOf(p, t.points[i].key) == t.partition)
    && (forall i :: 0 <= i < |t.points| ==> BoundaryOf(p, t.points[i].key) == BoundaryOf(p, t.maxKey))
  }

  // ---- where files are cut ------------------------------------------------------------------------

  /** What cuts a file: another partition, or its bytes reaching the limit. */
  datatype Cuts = Cuts(partitioner: Option<Partitioner>, limit: nat, size: Version -> nat)

  function SizeOf(vs: seq<Version>, size: Version -> nat): nat
  {
    if vs == [] then 0 else SizeOf(vs[..|vs| - 1], size) + size(vs[|vs| - 1])
  }

  predicate Parted(p: Option<Partitioner>, a: Key, b: Key)
  {
    NameOf(p, a) != NameOf(p, b) || BoundaryOf(p, a) != BoundaryOf(p, b)
  }

  /** Wherever a new key begins inside a file, the bytes before it are below the limit. */
  ghost predicate UnderLimit(c: Cuts, vs: seq<Version>)
  {
    forall i :: 0 <= i < |vs| - 1 && vs[i].key != vs[i + 1].key ==> SizeOf(vs[..i + 1], c.size) < c.limit
  }

  /** The file may not go on with `k`. */
  predicate Ends(c: Cuts, t: Table, k: Key)
  {
    SizeOf(t.points, c.size) >= c.limit || Parted(c.partitioner, t.maxKey, k)
  }

  /** No file goes on past a cut, and none is cut without reason; the file after `ts` begins
      at `next`. */
  ghost predicate CutWell(c: Cuts, ts: seq<Table>, next: Option<Key>)
  {
    && (forall i :: 0 <= i < |ts| ==> UnderLimit(c, ts[i].points))
    && (forall i :: 0 <= i < |ts| - 1 ==> Ends(c, ts[i], ts[i + 1].minKey))
    && (ts != [] && next.Some? ==> Ends(c, ts[|ts| - 1], next.value))
  }

  lemma CutAppend(c: Cuts, ts: seq<Table>, t: Table, next: Option<Key>)
    requires CutWell(c, ts, Some(t.minKey)) && UnderLimit(c, t.points) && (next.Some? ==> Ends(c, t, next.value))
    ensures CutWell(c, ts + [t], next)
  {
    hide Ends, UnderLimit;
  }

  lemma {:induction false} LimitAppend(c: Cuts, vs: seq<Version>, v: Version)
    requires UnderLimit(c, vs)
    requires vs != [] && vs[|vs| - 1].key != v.key ==> SizeOf(vs, c.size) < c.limit
    ensures UnderLimit(c, vs + [v]) && SizeOf(vs + [v], c.size) == SizeOf(vs, c.size) + c.size(v)
  {
    hide SizeOf;
    var ws := vs + [v];
    assert ws[..|vs|] == vs;
    forall i | 0 <= i < |ws| - 1 && ws[i].key != ws[i + 1].key ensures SizeOf(ws[..i + 1], c.size) < c.limit {
      assert ws[..i + 1] == vs[..i + 1];
      if i + 1 == |vs| { assert vs[..i + 1] == vs; }
    }
    SizeSnoc(vs, v, c.size);
  }

  lemma {:induction false} SizeSnoc(vs: seq<Version>, v: Version, size: Version -> nat)
    ensures SizeOf(vs + [v], size) == SizeOf(vs, size) + size(v)
  {
    assert (vs + [v])[..|vs|] == vs;
  }

  // ---- the tables of a span -------------------------------------------------------------------------

  /** Strictly ascending key ranges, so no key's versions are split. */
  ghost predicate Ascend(ts: seq<Table>)
  {
    forall i, j :: 0 <= i < j < |ts| ==> ts[i].maxKey < ts[j].minKey
  }

  /** The lower edge of the interval the table after `closed` owns: its own first key,
      but the first table also owns everything down to the span's edge. */
  function LowerEdge(closed: seq<Table>, t: Table): Option<Key>
  {
    if closed == [] then None else Some(t.minKey)
  }

  /** Each table owns the fragments from its lower edge to the next table's first key,
      and the last one those up to `next`. */
  ghost predicate Clipped(ts: seq<Table>, frags: seq<Fragment>, next: Option<Key>)
  {
    ts == [] ||
    var closed, t := ts[..|ts| - 1], ts[|ts| - 1];
    && t.frags == ClipFragments(frags, LowerEdge(closed, t), next)
    && Clipped(closed, frags, Some(t.minKey))
  }

  lemma {:induction false} ClippedAppend(ts: seq<Table>, frags: seq<Fragment>, t: Table, next: Option<Key>)
    requires Clipped(ts, frags, Some(t.minKey))
    requires t.frags == ClipFragments(frags, LowerEdge(ts, t), next)
    ensures Clipped(ts + [t], frags, next)
  {
    assert (ts + [t])[..|ts|] == ts;
  }

  /** Tables before `next` tile the keys below it. */
  lemma {:induction false} TilesSpan(ts: seq<Table>, frags: seq<Fragment>, next: Option<Key>, k: Key)
    requires Ascend(ts) && Clipped(ts, frags, next)
    requires forall i :: 0 <= i < |ts| ==> ts[i].minKey <= ts[i].maxKey && (next.Some? ==> ts[i].minKey <= next.value)
    ensures AllCovers(ts, k) == if ts != [] && InBounds(k, None, next) then CoversOf(frags, k) else {}
    decreases |ts|
  {
    hide CoversOf;
    if ts == [] {
    } else {
      var closed, t := ts[..|ts| - 1], ts[|ts| - 1];
      AllCoversConcat(closed, [t], k);
      assert ts == closed + [t];
      TilesSpan(closed, frags, Some(t.minKey), k);
      ClipKeepsCovers(frags, LowerEdge(closed, t), next, k);
    }
  }

  /** The slice table `i` got. */
  lemma {:induction false} ClippedAt(ts: seq<Table>, frags: seq<Fragment>, next: Option<Key>, i: nat)
    requires Clipped(ts, frags, next) && i < |ts|
    ensures ts[i].frags == ClipFragments(frags, if i == 0 then None else Some(ts[i].minKey),
                                         if i + 1 < |ts| then Some(ts[i + 1].minKey) else next)
    decreases |ts|
  {
    if i + 1 < |ts| {
      ClippedAt(ts[..|ts| - 1], frags, Some(ts[|ts| - 1].minKey), i);
    }
  }

  /** Every table after the first keeps its fragments in its own interval. */
  lemma {:induction false} OwnInterval(ts: seq<Table>, frags: seq<Fragment>, next: Option<Key>, i: nat)
    requires Clipped(ts, frags, next) && 0 < i < |ts|
    ensures Bounded(ts[i].frags, Some(ts[i].minKey), if i + 1 < |ts| then Some(ts[i + 1].minKey) else next)
  {
    ClippedAt(ts, frags, next, i);
    ClipBounded(frags, Some(ts[i].minKey), if i + 1 < |ts| then Some(ts[i + 1].minKey) else next, None, None);
  }

  /** The tables a span's builder returns for `written` and the retained `frags`. */
  ghost predicate Built(ts: seq<Table>, p: Option<Partitioner>, written: seq<Version>, frags: seq<Fragment>,
                        upper: Option<Key>)
  {
    && AllPoints(ts) == written
    && Ascend(ts) && Clipped(ts, frags, upper)
    && (written == [] && frags == [] ==> ts == [])
    && (written == [] && frags != [] ==>
          && |ts| == 1 && ts[0].points == [] && ts[0].frags != []
          && ts[0].minKey == RangeMin(ts[0]) && ts[0].maxKey == RangeMax(ts[0]))
    && (written != [] ==> ts != [] && forall i :: 0 <= i < |ts| ==> PointFile(ts[i], p))
  }

  /** The rules a job freezes: no limit is below one byte. */
  function RulesOf(p: Option<Partitioner>, targetFileSize: nat, size: Version -> nat): Cuts
  {
    Cuts(p, if targetFileSize < 1 then 1 else targetFileSize, size)
  }

  lemma NoBytes(c: Cuts)
    ensures UnderLimit(c, []) && SizeOf([], c.size) == 0
  {
  }

  /** Consecutive ids from `first` on, all for one level. */
  predicate Numbered(ts: seq<Table>, first: nat, level: nat)
  {
    forall i :: 0 <= i < |ts| ==> ts[i].id == first + i && ts[i].level == level
  }

  lemma NumberedConcat(a: seq<Table>, b: seq<Table>, first: nat, level: nat)
    requires Numbered(a, first, level) && Numbered(b, first + |a|, level)
    ensures Numbered(a + b, first, level)
  {
  }

  lemma {:induction false} ClipAll(frags: seq<Fragment>, upper: Option<Key>)
    requires Tidy(frags) && Bounded(frags, None, upper)
    ensures ClipFragments(frags, None, upper) == frags
    decreases |frags|
  {
    hide Tidy, Bounded;
    if frags == [] {
    } else {
      TidyTail(frags, None, upper);
      ClipAll(frags[1..], upper);
      assert Fragment(frags[0].start, frags[0].end, frags[0].seqs) == frags[0];
      assert [frags[0]] + frags[1..] == frags;
    }
  }

  lemma AppendSorted(closed: seq<Version>, points: seq<Version>, v: Version)
    requires Sorted(closed + points + [v])
    ensures Sorted(points + [v])
  {
    var whole := closed + points + [v];
    assert points + [v] == whole[|closed|..];
  }

  /** The closed tables and the first key of the one still open. */
  ghost predicate Closed(ts: seq<Table>, p: Option<Partitioner>, frags: seq<Fragment>, next: Key)
  {
    && Ascend(ts) && Clipped(ts, frags, Some(next))
    && (forall i :: 0 <= i < |ts| ==> PointFile(ts[i], p) && ts[i].maxKey < next)
  }

  lemma {:induction false} CloseTable(ts: seq<Table>, p: Option<Partitioner>, frags: seq<Fragment>, t: Table,
                                      hi: Option<Key>)
    requires Closed(ts, p, frags, t.minKey)
    requires PointFile(t, p) && t.minKey <= t.maxKey
    requires t.frags == ClipFragments(frags, LowerEdge(ts, t), hi)
    ensures Ascend(ts + [t]) && Clipped(ts + [t], frags, hi)
    ensures forall i :: 0 <= i < |ts + [t]| ==> PointFile((ts + [t])[i], p)
    ensures hi.Some? && t.maxKey < hi.value ==> Closed(ts + [t], p, frags, hi.value)
    ensures AllPoints(ts + [t]) == AllPoints(ts) + t.points
  {
    ClippedAppend(ts, frags, t, hi);
    AllPointsConcat(ts, [t]);
    assert AllPoints([t]) == t.points;
  }

  class CompactionOutputBuilder {
    const target: nat
    const targetBytes: nat
    const size: Version -> nat
    const partitioner: Option<Partitioner>
    const fragments: seq<Fragment>
    const spanUpper: Option<Key>
    const firstId: nat
    var nextId: nat
    var current: Option<CurrentOutput>
    var outputs: seq<Table>
    var lastBoundary: Option<Key>
    var intervalLower: Option<Key>
    var pendingCut: bool
    var cutAfter: Key
    ghost var written: seq<Version>

    constructor (target: nat, targetFileSize: nat, size: Version -> nat, partitioner: Option<Partitioner>,
                 fragments: seq<Fragment>, spanUpper: Option<Key>, nextId: nat)
      requires Tidy(fragments) && Bounded(fragments, None, spanUpper)
      ensures Valid() && written == []
      ensures this.partitioner == partitioner && this.fragments == fragments && this.spanUpper == spanUpper
      ensures this.target == target && firstId == nextId
      ensures Rules() == RulesOf(partitioner, targetFileSize, size)
    {
      this.target, this.size, this.partitioner := target, size, partitioner;
      targetBytes := if targetFileSize < 1 then 1 else targetFileSize;
      this.fragments, this.spanUpper, firstId, this.nextId := fragments, spanUpper, nextId, nextId;
      current, outputs, lastBoundary, intervalLower := None, [], None, None;
      pendingCut, cutAfter, written := false, 0.0, [];
    }

    function Rules(): Cuts
    {
      Cuts(partitioner, targetBytes, size)
    }

    ghost predicate Valid()
      reads this
    {
      && Tidy(fragments) && Bounded(fragments, None, spanUpper)
      && Numbered(outputs, firstId, target) && nextId == firstId + |outputs|
      && Sorted(written)
      && AllPoints(outputs) + (if current.None? then [] else current.value.points) == written
      && (current.None? ==> outputs == [] && intervalLower == None && !pendingCut)
      && (current.Some? ==> CurrentValid(current.value))
    }

    ghost predicate CurrentValid(c: CurrentOutput)
      reads this
    {
      && c.points != [] && Sorted(c.points)
      && Closed(outputs, partitioner, fragments, c.points[0].key)
      && intervalLower == (if outputs == [] then None else Some(c.points[0].key))
      && (forall i :: 0 <= i < |c.points| ==> NameOf(partitioner, c.points[i].key) == c.partition)
      && (forall i :: 0 <= i < |c.points| ==> BoundaryOf(partitioner, c.points[i].key) == lastBoundary)
      && (pendingCut ==> cutAfter == c.points[|c.points| - 1].key)
      && c.bytes == SizeOf(c.points, size) && (pendingCut <==> c.bytes >= targetBytes)
      && UnderLimit(Rules(), c.points) && CutWell(Rules(), outputs, Some(c.points[0].key))
    }

    /** Close the current output; its interval ends at `upper`, or at the span's edge. */
    method FinishCurrent(upper: Option<Key>)
      requires Valid() && current.Some?
      requires upper.Some? ==>
                 var last := current.value.points[|current.value.points| - 1].key;
                 last < upper.value && (pendingCut || Parted(partitioner, last, upper.value))
      modifies this
      ensures current == None && intervalLower == upper && written == old(written)
      ensures outputs != [] && AllPoints(outputs) == written && Ascend(outputs)
      ensures Clipped(outputs, fragments, if upper.Some? then upper else spanUpper)
      ensures forall i :: 0 <= i < |outputs| ==> PointFile(outputs[i], partitioner)
      ensures upper.Some? ==> Closed(outputs, partitioner, fragments, upper.value)
      ensures lastBoundary == old(lastBoundary)
      ensures Numbered(outputs, firstId, target) && nextId == firstId + |outputs|
      ensures CutWell(Rules(), outputs, upper)
    {
      hide Clipped, Numbered, CutWell, UnderLimit, SizeOf;
      var c := current.value;
      var hi := if upper.Some? then upper else spanUpper;
      var t := Table(nextId, target, c.points, ClipFragments(fragments, intervalLower, hi),
                     c.points[0].key, c.points[|c.points| - 1].key, MaxSeqOf(c.points), c.partition);
      assert t.minKey <= t.maxKey;
      CloseTable(outputs, partitioner, fragments, t, hi);
      NumberedConcat(outputs, [t], firstId, target);
      CutAppend(Rules(), outputs, t, upper);
      nextId := nextId + 1;
      outputs := outputs + [t];
      intervalLower := upper;
      current := None;
    }

    /** Whether `key` may not share the current output: another partition or boundary,
        or a size cut whose key has passed. */
    method MustCut(key: Key) returns (cut: bool)
      requires Valid()
      ensures cut <==> current.Some? && var last := current.value.points[|current.value.points| - 1].key;
                         Parted(partitioner, last, key) || (pendingCut && key != last)
    {
      if current.None? { return false; }
      var partition, boundary := NameOf(partitioner, key), BoundaryOf(partitioner, key);
      var boundaryChanged := match (partitioner, lastBoundary)
        case (Some(_), Some(previous)) => boundary != Some(previous)
        case (Some(_), None) => boundary.Some?
        case (None, _) => false;
      cut := boundaryChanged || current.value.partition != partition || (pendingCut && key != cutAfter);
    }

    /** No cut stands between the builder and `v`. */
    ghost predicate ReadyFor(v: Version)
      reads this
    {
      && Tidy(fragments) && Bounded(fragments, None, spanUpper)
      && Numbered(outputs, firstId, target) && nextId == firstId + |outputs|
      && Sorted(written + [v])
      && AllPoints(outputs) + (if current.None? then [] else current.value.points) == written
      && (current.None? ==>
            && Closed(outputs, partitioner, fragments, v.key) && !pendingCut
            && (intervalLower == if outputs == [] then None else Some(v.key))
            && CutWell(Rules(), outputs, Some(v.key)))
      && (current.Some? ==>
            && CurrentValid(current.value)
            && var last := current.value.points[|current.value.points| - 1].key;
               !Parted(partitioner, last, v.key) && (pendingCut ==> v.key == last))
    }

    method Append(v: Version)
      requires ReadyFor(v)
      modifies this
      ensures Valid() && current.Some? && written == old(written) + [v]
    {
      hide Closed, Bounded, BoundaryOf, AllPoints, CutWell, UnderLimit, SizeOf;
      lastBoundary := BoundaryOf(partitioner, v.key);
      var c := if current.Some? then current.value else CurrentOutput([], 0, NameOf(partitioner, v.key));
      var bytes := c.bytes + size(v);
      ghost var closed := AllPoints(outputs);
      AppendSorted(closed, c.points, v);
      assert c.points == [] ==> UnderLimit(Rules(), []) && SizeOf([], size) == 0 by { NoBytes(Rules()); }
      LimitAppend(Rules(), c.points, v);
      assert closed + (c.points + [v]) == written + [v];
      current := Some(CurrentOutput(c.points + [v], bytes, c.partition));
      written := written + [v];
      if bytes >= targetBytes && !pendingCut {
        pendingCut := true;
        cutAfter := v.key;
      }
    }

    /** Append one version, in internal order. */
    method Write(v: Version)
      requires Valid() && Sorted(written + [v])
      modifies this
      ensures Valid() && current.Some? && written == old(written) + [v]
    {
      var cut := MustCut(v.key);
      if cut {
        var last := current.value.points[|current.value.points| - 1];
        ghost var whole := written + [v];
        assert whole[|whole| - 1] == v && whole[|whole| - 2] == last;
        assert Precedes(last, v);
        FinishCurrent(Some(v.key));
        pendingCut := false;
      }
      Append(v);
    }

    /** Close the last output. A span that wrote nothing but retained range deletes
        still gets a table to hold them. */
    method Finish()
      requires Valid()
      modifies this
      ensures Built(outputs, partitioner, old(written), fragments, spanUpper)
      ensures Numbered(outputs, firstId, target) && CutWell(Rules(), outputs, None)
    {
      if current.Some? {
        FinishCurrent(None);
      } else if fragments != [] {
        var frags := ClipFragments(fragments, None, spanUpper);
        ClipAll(fragments, spanUpper);
        var t := Table(nextId, target, [], frags, frags[0].start, frags[|frags| - 1].end, 0, None);
        nextId := nextId + 1;
        outputs := [t];
        assert AllPoints([t]) == [] + AllPoints([]);
        assert Clipped([t], fragments, spanUpper) by { assert [t][..0] == []; }
      }
    }
  }
}
