/** `get`: every source of a key, with and without the early exit, against the walk. */
module GetImpl {
  import opened Semantics
  import opened PointRead
  import opened ChainFold

  /** All a read can see: points of the probed sources, range deletes of every source. */
  function Whole(probed: seq<Probe>, ranged: seq<Probe>): History
  {
    Overlay(Points(probed), Covers(probed + ranged))
  }

  /** Copies of a version agree; no range delete shares a sequence with a point. */
  ghost predicate Readable(probed: seq<Probe>, ranged: seq<Probe>)
  {
    Coherent(Points(probed), probed) && Points(probed).Keys !! Covers(probed + ranged)
  }

  lemma PointsIn(ps: seq<Probe>, n: nat) returns (i: nat)
    requires n in Points(ps)
    ensures i < |ps| && n in ps[i].points
  {
    if n in ps[0].points {
      i := 0;
    } else {
      var j := PointsIn(ps[1..], n);
      i := j + 1;
    }
  }

  lemma CoversIn(ps: seq<Probe>, n: nat) returns (i: nat)
    requires n in Covers(ps)
    ensures i < |ps| && n in ps[i].covers
  {
    if n in ps[0].covers {
      i := 0;
    } else {
      var j := CoversIn(ps[1..], n);
      i := j + 1;
    }
  }

  lemma {:induction false} CoversHave(ps: seq<Probe>, i: nat, n: nat)
    requires i < |ps| && n in ps[i].covers
    ensures n in Covers(ps)
  {
    if i == 0 {
    } else {
      CoversHave(ps[1..], i - 1, n);
    }
  }

  function NewestOf(covers: set<nat>, s: int): (r: Option<nat>)
    ensures s >= 0 ==> NewestAtMost(r, covers, s)
    decreases s + 1
  {
    if s < 0 then None else if s in covers then Some(s) else NewestOf(covers, s - 1)
  }

  /** `covering_range_seq`: the maximum over the sources. */
  method CoveringRangeSeq(ps: seq<Probe>, s: nat) returns (best: Option<nat>)
    ensures NewestAtMost(best, Covers(ps), s)
  {
    best := None;
    var i := 0;
    while i < |ps|
      invariant 0 <= i <= |ps|
      invariant best.Some? ==> best.value <= s && best.value in Covers(ps)
      invariant forall j, c :: 0 <= j < i && c in ps[j].covers && c <= s ==> best.Some? && c <= best.value
    {
      var taken := NewestOf(ps[i].covers, s);
      if taken.Some? {
        CoversHave(ps, i, taken.value);
        best := if best.None? || taken.value > best.value then taken else best;
      }
      i := i + 1;
    }
    forall c | c in Covers(ps) && c <= s ensures best.Some? && c <= best.value {
      var j := CoversIn(ps, c);
    }
  }

  ghost predicate Within(part: History, whole: History)
  {
    forall n :: n in part ==> n in whole && part[n] == whole[n]
  }

  /** The candidate has considered these sources. */
  ghost predicate Considers(seen: History, ps: seq<Probe>)
  {
    forall j, n :: 0 <= j < |ps| && n in ps[j].points ==> n in seen
  }

  method ProbeMemtables(c: PointReadCandidate, mems: seq<Probe>, s: nat, now: int, ghost points: History)
    returns (ghost seen: History)
    requires c.State() == NOTHING && Coherent(points, mems)
    modifies c
    ensures Shows(c.State(), seen, s, now) && c.rangeFloor == None && Within(seen, points) && Considers(seen, mems)
  {
    seen := map[];
    var i := 0;
    while i < |mems|
      invariant 0 <= i <= |mems| && Shows(c.State(), seen, s, now) && c.rangeFloor == None
      invariant Within(seen, points) && Considers(seen, mems[..i])
    {
      assert Fits(points, mems[i]);
      ConsideredShows(c.State(), seen, mems[i].points, s, now);
      c.Consider(mems[i].points, s, now);
      seen := seen + mems[i].points;
      i := i + 1;
    }
    assert mems[..|mems|] == mems;
  }

  /** `consider_sstables`, with the per-table `max_seq` gate. */
  method ConsiderTables(c: PointReadCandidate, tables: seq<Probe>, s: nat, now: int, earlyExit: bool,
                        ghost before: History, ghost whole: History)
    returns (ghost seen: History)
    requires Shows(c.State(), before, s, now) && Within(before, whole) && Coherent(whole, tables)
    modifies c
    ensures Shows(c.State(), seen, s, now) && c.rangeFloor == old(c.rangeFloor)
    ensures Within(seen, whole) && Within(before, seen) && Considers(seen, tables)
  {
    seen := before;
    var i := 0;
    while i < |tables|
      invariant 0 <= i <= |tables| && Shows(c.State(), seen, s, now) && c.rangeFloor == old(c.rangeFloor)
      invariant Within(seen, whole) && Within(before, seen) && Considers(seen, tables[..i])
    {
      assert Fits(whole, tables[i]);
      if earlyExit && c.found && tables[i].maxSeq <= c.seqno {
        SkippedShows(c.State(), seen, tables[i].points, tables[i].maxSeq, s, now);
      } else {
        ConsideredShows(c.State(), seen, tables[i].points, s, now);
        c.Consider(tables[i].points, s, now);
      }
      seen := seen + tables[i].points;
      i := i + 1;
    }
    assert tables[..|tables|] == tables;
  }

  lemma {:induction false} AllConsidered(seen: History, all: seq<Probe>, ranged: seq<Probe>)
    requires Within(seen, Whole(all, ranged)) && Considers(seen, all)
    requires forall n :: n in Covers(all + ranged) ==> n in seen
    ensures seen == Whole(all, ranged)
  {
    forall n | n in Whole(all, ranged) ensures n in seen {
      if n !in Covers(all + ranged) { var j := PointsIn(all, n); }
    }
  }

  lemma CoherentSplit(h: History, a: seq<Probe>, b: seq<Probe>)
    requires Coherent(h, a + b)
    ensures Coherent(h, a) && Coherent(h, b)
  {
    forall i | 0 <= i < |a| ensures Fits(h, a[i]) { assert (a + b)[i] == a[i]; }
    forall i | 0 <= i < |b| ensures Fits(h, b[i]) { assert (a + b)[|a| + i] == b[i]; }
  }

  lemma CoherentOverlay(h: History, covers: set<nat>, ps: seq<Probe>)
    requires Coherent(h, ps) && h.Keys !! covers
    ensures Coherent(Overlay(h, covers), ps)
  {
  }

  /** Memtables newest first, then the mask, then the tables. */
  method ResolvePoint(mems: seq<Probe>, tables: seq<Probe>, ranged: seq<Probe>, s: nat, now: int, earlyExit: bool)
    returns (c: PointReadCandidate)
    requires Readable(mems + tables, ranged)
    ensures fresh(c) && Shows(c.State(), Whole(mems + tables, ranged), s, now)
    ensures NewestAtMost(c.rangeFloor, Covers(mems + tables + ranged), s)
  {
    ghost var all := mems + tables;
    ghost var points, covers := Points(all), Covers(all + ranged);
    CoherentSplit(points, mems, tables);
    CoherentOverlay(points, covers, tables);
    c := new PointReadCandidate();
    ghost var probed := ProbeMemtables(c, mems, s, now, points);
    var covering := CoveringRangeSeq(mems + tables + ranged, s);
    MaskedShows(c.State(), probed, covering, covers, s, now);
    c.Mask(covering);
    ghost var masked := Overlay(probed, covers);
    ghost var seen := ConsiderTables(c, tables, s, now, earlyExit, masked, Whole(all, ranged));
    SplitConsidered(probed, masked, seen, mems, tables, covers);
    AllConsidered(seen, all, ranged);
  }

  lemma ConsidersConcat(seen: History, a: seq<Probe>, b: seq<Probe>)
    requires Considers(seen, a) && Considers(seen, b)
    ensures Considers(seen, a + b)
  {
    forall j, n | 0 <= j < |a + b| && n in (a + b)[j].points ensures n in seen {
      if j < |a| { assert n in a[j].points; } else { assert n in b[j - |a|].points; }
    }
  }

  lemma SplitConsidered(probed: History, masked: History, seen: History, mems: seq<Probe>, tables: seq<Probe>,
                        covers: set<nat>)
    requires Considers(probed, mems) && Considers(seen, tables) && masked == Overlay(probed, covers)
    requires Within(masked, seen)
    ensures Considers(seen, mems + tables) && forall n :: n in covers ==> n in seen
  {
    forall n | n in covers ensures n in seen { assert n in masked; }
    forall j, n | 0 <= j < |mems| && n in mems[j].points ensures n in seen { assert n in masked; }
    ConsidersConcat(seen, mems, tables);
  }

  // ---- folding a winning operand --------------------------------------------------------------

  /** The gathered versions cover every visible entry of `h` down to its first base. */
  ghost predicate Gathered(gs: seq<Version>, k: Key, h: History, s: nat, now: int)
  {
    && FromHistory(gs, k, h, s, now)
    && (forall n: nat :: n in h && n <= s && n !in PointsOf(gs, k) ==>
        exists b: nat :: n < b <= s && b in h && !h[b].Operand?)
  }

  lemma {:induction false} GatheredResolves(gs: seq<Version>, k: Key, h: History, s: nat, r: Reader)
    requires Gathered(gs, k, h, s, r.now)
    ensures Resolve(r, Walk(PointsOf(gs, k), s)) == Resolve(r, Walk(h, s))
  {
    forall n | n in PointsOf(gs, k) ensures n in h && PointsOf(gs, k)[n] == Flat(h[n], r.now) {
      var i := PointsWitness(gs, k, n);
      assert gs[i] in gs;
    }
    GatheredWalk(PointsOf(gs, k), h, s, r.now);
  }

  ghost predicate Spans(gs: seq<Version>, k: Key, part: History, h: History, s: nat)
  {
    forall n: nat :: n in part && n <= s && n !in PointsOf(gs, k) ==>
        exists b: nat :: n < b <= s && b in h && !h[b].Operand?
  }

  /** Add one source's run. */
  method AddRun(gs: seq<Version>, k: Key, points: History, s: nat, now: int, ghost h: History) returns (r: seq<Version>)
    requires Within(points, h) && FromHistory(gs, k, h, s, now)
    ensures FromHistory(r, k, h, s, now) && KeepsPoints(gs, r, k)
    ensures forall part :: Spans(gs, k, part, h, s) ==> Spans(r, k, part, h, s)
    ensures Spans(r, k, points, h, s)
  {
    var run := Contribution(points, k, s, now);
    r := gs + run;
    PointsConcat(gs, run, k);
    ContributionKeys(points, k, s, now);
    forall v | v in run ensures v.seqno in h && v.entry == Flat(h[v.seqno], now) { RunEntry(points, k, s, now, v); }
    forall n: nat | n in points && n <= s && n !in PointsOf(r, k)
      ensures exists b: nat :: n < b <= s && b in h && !h[b].Operand?
    {
      var b := ContributionMisses(points, k, s, now, n);
    }
  }

  lemma {:induction false} RunEntry(points: History, k: Key, s: int, now: int, v: Version)
    requires v in Contribution(points, k, s, now)
    ensures v.seqno in points && v.entry == Flat(points[v.seqno], now)
    decreases s + 1
  {
    if s >= 0 && (s !in points || v != Version(k, s, Flat(points[s], now))) { RunEntry(points, k, s - 1, now, v); }
  }

  ghost predicate FromHistory(gs: seq<Version>, k: Key, h: History, s: nat, now: int)
  {
    forall v :: v in gs ==> v.key == k && v.seqno <= s && v.seqno in h && v.entry == Flat(h[v.seqno], now)
  }

  ghost predicate KeepsPoints(a: seq<Version>, b: seq<Version>, k: Key)
  {
    forall n :: n in PointsOf(a, k) ==> n in PointsOf(b, k)
  }

  method GatherRuns(first: seq<Version>, k: Key, sources: seq<Probe>, s: nat, now: int, ghost h: History)
    returns (gs: seq<Version>)
    requires FromHistory(first, k, h, s, now) && forall i :: 0 <= i < |sources| ==> Within(sources[i].points, h)
    ensures FromHistory(gs, k, h, s, now) && KeepsPoints(first, gs, k)
    ensures forall j :: 0 <= j < |sources| ==> Spans(gs, k, sources[j].points, h, s)
  {
    gs := first;
    var i := 0;
    while i < |sources|
      invariant 0 <= i <= |sources|
      invariant FromHistory(gs, k, h, s, now) && KeepsPoints(first, gs, k)
      invariant forall j :: 0 <= j < i ==> Spans(gs, k, sources[j].points, h, s)
    {
      gs := AddRun(gs, k, sources[i].points, s, now, h);
      i := i + 1;
    }
  }

  lemma {:induction false} RunsGather(gs: seq<Version>, k: Key, sources: seq<Probe>, s: nat, now: int,
                                      floor: Option<nat>, covers: set<nat>)
    requires NewestAtMost(floor, covers, s) && (floor.Some? ==> floor.value in PointsOf(gs, k))
    requires FromHistory(gs, k, Overlay(Points(sources), covers), s, now)
    requires forall j :: 0 <= j < |sources| ==> Spans(gs, k, sources[j].points, Overlay(Points(sources), covers), s)
    ensures Gathered(gs, k, Overlay(Points(sources), covers), s, now)
  {
    var h := Overlay(Points(sources), covers);
    forall n: nat | n in h && n <= s && n !in PointsOf(gs, k)
      ensures exists b: nat :: n < b <= s && b in h && !h[b].Operand?
    {
      if n in covers {
        assert n < floor.value <= s && floor.value in h && !h[floor.value].Operand?;
      } else {
        var j := PointsIn(sources, n);
        assert Spans(gs, k, sources[j].points, h, s);
      }
    }
  }

  /** Gather every source's run, with the newest range delete as a deleted base, and fold. */
  method FoldPointChain(op: MergeOp, k: Key, sources: seq<Probe>, s: nat, now: int, floor: Option<nat>,
                        ghost covers: set<nat>)
    returns (r: Outcome)
    requires Coherent(Points(sources), sources) && Points(sources).Keys !! covers && NewestAtMost(floor, covers, s)
    ensures r == Read(Reader(op, k, now), Overlay(Points(sources), covers), s)
  {
    ghost var h := Overlay(Points(sources), covers);
    var first := if floor.Some? then [Version(k, floor.value, Tombstone(false))] else [];
    assert floor.Some? ==> floor.value in PointsOf(first, k);
    var gs := GatherRuns(first, k, sources, s, now, h);
    RunsGather(gs, k, sources, s, now, floor, covers);
    GatheredResolves(gs, k, h, s, Reader(op, k, now));
    r := FoldChain(op, k, gs, s, now);
  }

  // ---- the read -------------------------------------------------------------------------------

  /** Unless the newest visible version is an operand, it is the answer. */
  lemma {:induction false} NewestAnswers(h: History, s: int, r: Reader)
    requires s >= 0
    ensures match NewestIn(h, s)
            case None => Resolve(r, Walk(h, s)) == NotFound
            case Some(n) =>
              && n in h
              && (!h[n].Operand? ==>
                    Resolve(r, Walk(h, s)) == if Dead(h[n], r.now) then NotFound else Found(Bytes(h[n])))
    decreases s
  {
    if s !in h && s > 0 { NewestAnswers(h, s - 1, r); }
  }

  /** `get`, and `get_exhaustive` when `earlyExit` is off: both are the reference read. */
  method Get(op: MergeOp, k: Key, mems: seq<Probe>, tables: seq<Probe>, ranged: seq<Probe>, s: nat, now: int,
             earlyExit: bool)
    returns (r: Outcome)
    requires Readable(mems + tables, ranged)
    ensures r == Read(Reader(op, k, now), Whole(mems + tables, ranged), s)
  {
    var c := ResolvePoint(mems, tables, ranged, s, now, earlyExit);
    NewestAnswers(Whole(mems + tables, ranged), s, Reader(op, k, now));
    if c.operand {
      r := FoldPointChain(op, k, mems + tables, s, now, c.rangeFloor, Covers(mems + tables + ranged));
    } else {
      r := c.Finish();
    }
  }
}
