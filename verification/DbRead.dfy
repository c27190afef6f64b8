/** A point read of the whole database, from the level layout to the log. */
module DbRead {
  import opened Semantics
  import opened Fragments
  import opened Tables
  import opened Levels
  import opened Sources
  import opened Engine
  import opened EngineFacts
  import opened EngineTheorem
  import opened PointRead
  import opened GetImpl
  import opened Lookup

  ghost predicate LevelsSearchable(levels: Tree)
  {
    forall i :: 1 <= i < |levels| ==> Searchable(levels[i])
  }

  /** Every level below L0 finds all it holds about `k`. */
  ghost predicate Served(levels: Tree, k: Key)
  {
    forall i :: 1 <= i < |levels| ==> Finds(levels[i], k)
  }

  lemma SearchableServes(levels: Tree, k: Key)
    requires TablesOk(levels) && LevelsSearchable(levels)
    ensures Served(levels, k)
  {
    forall i | 1 <= i < |levels| ensures Finds(levels[i], k) { SearchableFinds(levels[i], k); }
  }

  predicate KeyInRange(t: Table, k: Key)
  {
    t.minKey <= k <= t.maxKey
  }

  /** The chosen tables of some levels hold everything those levels say about `k`. */
  ghost predicate Chosen(ts: seq<Table>, k: Key, tables: seq<Table>, ranged: seq<Table>)
  {
    forall t :: t in ts ==>
      && (PointsOf(t.points, k) != map[] ==> t in tables)
      && (CoversOf(t.frags, k) != {} ==> t in tables || t in ranged)
  }

  /** L0 tables overlap, so each is judged by its own bounds. */
  function L0Tables(l0: seq<Table>, k: Key): seq<Table>
  {
    if l0 == [] then [] else (if KeyInRange(l0[0], k) then [l0[0]] else []) + L0Tables(l0[1..], k)
  }

  predicate RangeOnly(t: Table, k: Key)
  {
    !KeyInRange(t, k) && HasRanges(t) && SpanMin(t) <= k <= SpanMax(t)
  }

  function L0Ranged(l0: seq<Table>, k: Key): seq<Table>
  {
    if l0 == [] then [] else (if RangeOnly(l0[0], k) then [l0[0]] else []) + L0Ranged(l0[1..], k)
  }

  function At(level: seq<Table>, i: Option<nat>): seq<Table>
  {
    if i.Some? && i.value < |level| then [level[i.value]] else []
  }

  /** The tables a read of `k` probes, in source order. */
  function PointTables(levels: Tree, k: Key): seq<Table>
  {
    if levels == [] then [] else L0Tables(levels[0], k) + HitTables(levels[1..], k)
  }

  function HitTables(levels: Tree, k: Key): seq<Table>
  {
    if levels == [] then [] else At(levels[0], Hit(levels[0], k)) + HitTables(levels[1..], k)
  }

  /** The tables it consults for coverage only. */
  function RangeTables(levels: Tree, k: Key): seq<Table>
  {
    if levels == [] then [] else L0Ranged(levels[0], k) + GapTables(levels[1..], k)
  }

  function GapTables(levels: Tree, k: Key): seq<Table>
  {
    if levels == [] then [] else At(levels[0], Gap(levels[0], k)) + GapTables(levels[1..], k)
  }

  lemma {:induction false} L0Chosen(l0: seq<Table>, k: Key)
    requires forall t :: t in l0 ==> WellFormed(t)
    ensures Chosen(l0, k, L0Tables(l0, k), L0Ranged(l0, k))
  {
    if l0 == [] {
    } else {
      L0Chosen(l0[1..], k);
      OutOfRange(l0[0], k);
    }
  }

  lemma {:induction false} OutOfRange(t: Table, k: Key)
    requires WellFormed(t)
    ensures PointsOf(t.points, k) != map[] ==> KeyInRange(t, k)
    ensures CoversOf(t.frags, k) != {} ==> HasRanges(t) && SpanMin(t) <= k <= SpanMax(t)
  {
    if PointsOf(t.points, k) != map[] {
      var n :| n in PointsOf(t.points, k);
      var i := PointsWitness(t.points, k, n);
    }
    if CoversOf(t.frags, k) != {} { CoverSpans(t, k); }
  }

  lemma LevelChosen(level: seq<Table>, k: Key)
    requires Finds(level, k)
    ensures Chosen(level, k, At(level, Hit(level, k)), At(level, Gap(level, k)))
  {
    forall t | t in level
      ensures PointsOf(t.points, k) != map[] ==> t in At(level, Hit(level, k))
      ensures CoversOf(t.frags, k) != {} ==> t in At(level, Hit(level, k)) || t in At(level, Gap(level, k))
    {
      var i :| 0 <= i < |level| && level[i] == t;
    }
  }

  lemma {:induction false} LevelsChosen(levels: Tree, k: Key)
    requires forall i :: 0 <= i < |levels| ==> Finds(levels[i], k)
    ensures Chosen(AllTables(levels), k, HitTables(levels, k), GapTables(levels, k))
  {
    if levels == [] {
    } else {
      LevelChosen(levels[0], k);
      LevelsChosen(levels[1..], k);
    }
  }

  lemma {:induction false} L0Live(l0: seq<Table>, k: Key)
    ensures forall t :: t in L0Tables(l0, k) || t in L0Ranged(l0, k) ==> t in l0
  {
    if l0 == [] {
    } else {
      L0Live(l0[1..], k);
    }
  }

  lemma {:induction false} LevelsLive(levels: Tree, k: Key)
    ensures forall t :: t in HitTables(levels, k) || t in GapTables(levels, k) ==> t in AllTables(levels)
  {
    if levels == [] {
    } else {
      LevelsLive(levels[1..], k);
    }
  }

  /** Every chosen table is live. */
  lemma {:induction false} ChosenLive(levels: Tree, k: Key)
    ensures forall t :: t in PointTables(levels, k) || t in RangeTables(levels, k) ==> t in AllTables(levels)
  {
    if levels == [] {
    } else {
      L0Live(levels[0], k);
      LevelsLive(levels[1..], k);
    }
  }

  /** Where the levels serve `k`, the chosen tables miss nothing about it. */
  lemma {:induction false} TreeChosen(levels: Tree, k: Key)
    requires TablesOk(levels) && Served(levels, k)
    ensures Chosen(AllTables(levels), k, PointTables(levels, k), RangeTables(levels, k))
  {
    if levels != [] {
      forall t | t in levels[0] ensures WellFormed(t) { assert InTree(levels, t); }
      L0Chosen(levels[0], k);
      LevelsChosen(levels[1..], k);
    }
  }

  lemma {:induction false} L0Step(l0: seq<Table>, i: nat, k: Key, a: seq<Table>, b: seq<Table>)
    requires i < |l0|
    ensures a + L0Tables(l0[i..], k) == (a + if KeyInRange(l0[i], k) then [l0[i]] else []) + L0Tables(l0[i + 1..], k)
    ensures b + L0Ranged(l0[i..], k) == (b + if RangeOnly(l0[i], k) then [l0[i]] else []) + L0Ranged(l0[i + 1..], k)
  {
    assert l0[i..][1..] == l0[i + 1..];
  }

  method ChooseL0(l0: seq<Table>, k: Key) returns (tables: seq<Table>, ranged: seq<Table>)
    ensures tables == L0Tables(l0, k) && ranged == L0Ranged(l0, k)
  {
    tables, ranged := [], [];
    var i := 0;
    while i < |l0|
      invariant 0 <= i <= |l0|
      invariant tables + L0Tables(l0[i..], k) == L0Tables(l0, k)
      invariant ranged + L0Ranged(l0[i..], k) == L0Ranged(l0, k)
    {
      L0Step(l0, i, k, tables, ranged);
      if KeyInRange(l0[i], k) {
        tables := tables + [l0[i]];
      } else if HasRanges(l0[i]) && SpanMin(l0[i]) <= k <= SpanMax(l0[i]) {
        ranged := ranged + [l0[i]];
      }
      i := i + 1;
    }
  }

  lemma {:induction false} TreeStep(levels: Tree, i: nat, k: Key, a: seq<Table>, b: seq<Table>)
    requires i < |levels|
    ensures a + HitTables(levels[i..], k) == (a + At(levels[i], Hit(levels[i], k))) + HitTables(levels[i + 1..], k)
    ensures b + GapTables(levels[i..], k) == (b + At(levels[i], Gap(levels[i], k))) + GapTables(levels[i + 1..], k)
  {
    assert levels[i..][1..] == levels[i + 1..];
  }

  /** `point_read_sources`. */
  method PointReadSources(levels: Tree, k: Key) returns (tables: seq<Table>, ranged: seq<Table>)
    requires forall i :: 1 <= i < |levels| ==> EndsAscend(levels[i])
    ensures tables == PointTables(levels, k) && ranged == RangeTables(levels, k)
  {
    if levels == [] {
      return [], [];
    }
    tables, ranged := ChooseL0(levels[0], k);
    var i := 1;
    while i < |levels|
      invariant 1 <= i <= |levels|
      invariant tables + HitTables(levels[i..], k) == PointTables(levels, k)
      invariant ranged + GapTables(levels[i..], k) == RangeTables(levels, k)
    {
      TreeStep(levels, i, k, tables, ranged);
      var hit, lo := FindOverlappingAt(levels[i], k);
      var gap := GapOwner(levels[i], k, hit, lo);
      tables := tables + At(levels[i], hit);
      ranged := ranged + At(levels[i], gap);
      i := i + 1;
    }
  }

  // ---- from sources to probes -----------------------------------------------------------------

  function ProbeOf(s: Source, k: Key): Probe
  {
    match s
    case InMemory(m) => Probe(PointsOf(m.points, k), SpanCovers(m.spans, k), MaxSeqOf(m.points))
    case OnDisk(t) => Probe(PointsOf(t.points, k), CoversOf(t.frags, k), t.maxSeq)
  }

  function ProbesOf(ss: seq<Source>, k: Key): (ps: seq<Probe>)
    ensures |ps| == |ss| && forall i :: 0 <= i < |ss| ==> ps[i] == ProbeOf(ss[i], k)
  {
    seq(|ss|, i requires 0 <= i < |ss| => ProbeOf(ss[i], k))
  }

  lemma SaysProbe(s: Source, k: Key)
    ensures Says(s, k) == Overlay(ProbeOf(s, k).points, ProbeOf(s, k).covers)
    ensures Distinct(s) ==> ProbeOf(s, k).points.Keys !! ProbeOf(s, k).covers
  {
  }

  ghost predicate AreSources(db: Db, ss: seq<Source>)
  {
    forall s :: s in ss ==> IsSource(db, s)
  }

  /** These sources hold all the database says about `k`. */
  ghost predicate Consults(db: Db, k: Key, probed: seq<Source>, ranged: seq<Source>)
  {
    && AreSources(db, probed) && AreSources(db, ranged)
    && (forall s :: IsSource(db, s) && ProbeOf(s, k).points != map[] ==> s in probed)
    && (forall s :: IsSource(db, s) && ProbeOf(s, k).covers != {} ==> s in probed || s in ranged)
  }

  lemma PointFrom(ss: seq<Source>, k: Key, n: nat) returns (s: Source)
    requires n in Points(ProbesOf(ss, k))
    ensures s in ss && n in ProbeOf(s, k).points
  {
    var i := PointsIn(ProbesOf(ss, k), n);
    s := ss[i];
  }

  lemma CoverFrom(ss: seq<Source>, k: Key, n: nat) returns (s: Source)
    requires n in Covers(ProbesOf(ss, k))
    ensures s in ss && n in ProbeOf(s, k).covers
  {
    var i := CoversIn(ProbesOf(ss, k), n);
    s := ss[i];
  }

  lemma SourceDistinct(db: Db, s: Source)
    requires Ordered(db) && IsSource(db, s)
    ensures Distinct(s)
  {
  }

  /** A point one source holds is no other source's point or range delete. */
  lemma PointAlone(db: Db, s: Source, t: Source, k: Key, n: nat)
    requires Ordered(db) && IsSource(db, s) && IsSource(db, t) && n in ProbeOf(s, k).points
    ensures n !in ProbeOf(t, k).covers && (n in ProbeOf(t, k).points ==> s == t)
    ensures n in DbHistory(db, k) && DbHistory(db, k)[n] == ProbeOf(s, k).points[n]
  {
    SaysProbe(s, k);
    SaysProbe(t, k);
    SourceDistinct(db, s);
    DbValue(db, s, k, n);
    if n in Says(t, k) { DbOnly(db, s, t, k, n); }
  }

  lemma ProbeBound(db: Db, s: Source, k: Key, n: nat)
    requires Ordered(db) && IsSource(db, s) && n in ProbeOf(s, k).points
    ensures n <= ProbeOf(s, k).maxSeq
  {
    match s
    case InMemory(m) => var i := PointsWitness(m.points, k, n);
    case OnDisk(t) => var i := PointsWitness(t.points, k, n);
  }

  lemma PointsAgree(db: Db, k: Key, ss: seq<Source>, n: nat)
    requires Ordered(db) && AreSources(db, ss) && n in Points(ProbesOf(ss, k))
    ensures n in DbHistory(db, k) && Points(ProbesOf(ss, k))[n] == DbHistory(db, k)[n]
  {
    var ps := ProbesOf(ss, k);
    if n in ps[0].points {
      PointAlone(db, ss[0], ss[0], k, n);
    } else {
      assert ps[1..] == ProbesOf(ss[1..], k);
      PointsAgree(db, k, ss[1..], n);
    }
  }

  lemma {:induction false} PointsHave(ps: seq<Probe>, i: nat, n: nat)
    requires i < |ps| && n in ps[i].points
    ensures n in Points(ps)
  {
    if i == 0 {
    } else {
      PointsHave(ps[1..], i - 1, n);
    }
  }

  lemma PointProbed(ss: seq<Source>, s: Source, k: Key, n: nat)
    requires s in ss && n in ProbeOf(s, k).points
    ensures n in Points(ProbesOf(ss, k))
  {
    var i :| 0 <= i < |ss| && ss[i] == s;
    PointsHave(ProbesOf(ss, k), i, n);
  }

  lemma CoverProbed(ss: seq<Source>, s: Source, k: Key, n: nat)
    requires s in ss && n in ProbeOf(s, k).covers
    ensures n in Covers(ProbesOf(ss, k))
  {
    var i :| 0 <= i < |ss| && ss[i] == s;
    CoversHave(ProbesOf(ss, k), i, n);
  }

  lemma SourceFits(db: Db, k: Key, ss: seq<Source>, s: Source)
    requires Ordered(db) && AreSources(db, ss) && s in ss
    ensures Fits(Points(ProbesOf(ss, k)), ProbeOf(s, k))
  {
    forall n | n in ProbeOf(s, k).points
      ensures n <= ProbeOf(s, k).maxSeq && n in Points(ProbesOf(ss, k))
      ensures Points(ProbesOf(ss, k))[n] == ProbeOf(s, k).points[n]
    {
      ProbeBound(db, s, k, n);
      PointProbed(ss, s, k, n);
      PointsAgree(db, k, ss, n);
      PointAlone(db, s, s, k, n);
    }
  }

  lemma ProbesReadable(db: Db, k: Key, probed: seq<Source>, ranged: seq<Source>)
    requires Ordered(db) && AreSources(db, probed) && AreSources(db, ranged)
    ensures Readable(ProbesOf(probed, k), ProbesOf(ranged, k))
  {
    hide ProbesOf;
    var ps, rs := ProbesOf(probed, k), ProbesOf(ranged, k);
    forall i | 0 <= i < |ps| ensures Fits(Points(ps), ps[i]) { SourceFits(db, k, probed, probed[i]); }
    assert ps + rs == ProbesOf(probed + ranged, k);
    forall n | n in Points(ps) ensures n !in Covers(ps + rs) {
      var s := PointFrom(probed, k, n);
      if n in Covers(ps + rs) {
        var t := CoverFrom(probed + ranged, k, n);
        PointAlone(db, s, t, k, n);
      }
    }
  }

  lemma WholeWithin(db: Db, k: Key, probed: seq<Source>, ranged: seq<Source>, n: nat)
    requires Ordered(db) && AreSources(db, probed) && AreSources(db, ranged)
    requires n in Whole(ProbesOf(probed, k), ProbesOf(ranged, k))
    ensures n in DbHistory(db, k) && DbHistory(db, k)[n] == Whole(ProbesOf(probed, k), ProbesOf(ranged, k))[n]
  {
    hide ProbeOf;
    var ps, rs := ProbesOf(probed, k), ProbesOf(ranged, k);
    assert ps + rs == ProbesOf(probed + ranged, k);
    if n in Covers(ps + rs) {
      var s := CoverFrom(probed + ranged, k, n);
      SaysProbe(s, k);
      DbValue(db, s, k, n);
    } else {
      PointsAgree(db, k, probed, n);
    }
  }

  lemma WholeHas(db: Db, k: Key, probed: seq<Source>, ranged: seq<Source>, n: nat)
    requires Consults(db, k, probed, ranged) && n in DbHistory(db, k)
    ensures n in Whole(ProbesOf(probed, k), ProbesOf(ranged, k))
  {
    var s := DbWhere(db, k, n);
    SaysProbe(s, k);
    if n in ProbeOf(s, k).points {
      PointProbed(probed, s, k, n);
    } else {
      assert ProbesOf(probed, k) + ProbesOf(ranged, k) == ProbesOf(probed + ranged, k);
      CoverProbed(probed + ranged, s, k, n);
    }
  }

  /** Consulting the chosen sources sees the whole database. */
  lemma ConsultedIsAll(db: Db, k: Key, probed: seq<Source>, ranged: seq<Source>)
    requires Ordered(db) && Consults(db, k, probed, ranged)
    ensures Whole(ProbesOf(probed, k), ProbesOf(ranged, k)) == DbHistory(db, k)
  {
    var whole := Whole(ProbesOf(probed, k), ProbesOf(ranged, k));
    forall n | n in whole
      ensures n in DbHistory(db, k) && DbHistory(db, k)[n] == whole[n]
    {
      WholeWithin(db, k, probed, ranged, n);
    }
    forall n | n in DbHistory(db, k) ensures n in whole { WholeHas(db, k, probed, ranged, n); }
  }

  // ---- the read -------------------------------------------------------------------------------

  /** The active memtable, then the sealed ones newest first. */
  function MemSources(db: Db): seq<Source>
  {
    [InMemory(db.mem)] + seq(|db.imms|, i requires 0 <= i < |db.imms| => InMemory(db.imms[|db.imms| - 1 - i]))
  }

  lemma MemSourceIff(db: Db, s: Source)
    ensures s in MemSources(db) <==> s.InMemory? && IsSource(db, s)
  {
    if s.InMemory? && s.mem in db.imms {
      var i :| 0 <= i < |db.imms| && db.imms[i] == s.mem;
      assert MemSources(db)[|db.imms| - i] == s;
    }
    if s.InMemory? && s.mem == db.mem { assert MemSources(db)[0] == s; }
  }

  lemma TableSourceIff(ts: seq<Table>, s: Source)
    ensures s in TableSources(ts) <==> s.OnDisk? && s.table in ts
  {
    if s.OnDisk? && s.table in ts {
      var i :| 0 <= i < |ts| && ts[i] == s.table;
      assert TableSources(ts)[i] == s;
    }
  }

  function ChosenSources(db: Db, k: Key): seq<Source>
  {
    MemSources(db) + TableSources(PointTables(db.levels, k))
  }

  function RangedSources(db: Db, k: Key): seq<Source>
  {
    TableSources(RangeTables(db.levels, k))
  }

  lemma ChosenIff(db: Db, k: Key, s: Source)
    ensures s in ChosenSources(db, k) <==>
            (s.InMemory? && IsSource(db, s)) || (s.OnDisk? && s.table in PointTables(db.levels, k))
    ensures s in RangedSources(db, k) <==> s.OnDisk? && s.table in RangeTables(db.levels, k)
  {
    MemSourceIff(db, s);
    TableSourceIff(PointTables(db.levels, k), s);
    TableSourceIff(RangeTables(db.levels, k), s);
  }

  lemma ChosenAreSources(db: Db, k: Key)
    ensures AreSources(db, ChosenSources(db, k)) && AreSources(db, RangedSources(db, k))
  {
    hide ChosenSources, RangedSources;
    ChosenLive(db.levels, k);
    forall s | s in ChosenSources(db, k) || s in RangedSources(db, k) ensures IsSource(db, s) { ChosenIff(db, k, s); }
  }

  lemma ChosenConsults(db: Db, k: Key)
    requires TablesOk(db.levels) && Served(db.levels, k)
    ensures Consults(db, k, ChosenSources(db, k), RangedSources(db, k))
  {
    hide ChosenSources, RangedSources, PointTables, RangeTables, TablesOk, Served;
    ChosenAreSources(db, k);
    TreeChosen(db.levels, k);
    forall s
      ensures s in ChosenSources(db, k) <==>
              (s.InMemory? && IsSource(db, s)) || (s.OnDisk? && s.table in PointTables(db.levels, k))
      ensures s in RangedSources(db, k) <==> s.OnDisk? && s.table in RangeTables(db.levels, k)
    {
      ChosenIff(db, k, s);
    }
  }

  function MemProbes(db: Db, k: Key): seq<Probe>
  {
    ProbesOf(MemSources(db), k)
  }

  function TableProbes(ts: seq<Table>, k: Key): seq<Probe>
  {
    ProbesOf(TableSources(ts), k)
  }

  /** What a read of `k` sees: every memtable, and the tables chosen for `k`. */
  function ReadHistory(db: Db, k: Key): History
  {
    Whole(MemProbes(db, k) + TableProbes(PointTables(db.levels, k), k), TableProbes(RangeTables(db.levels, k), k))
  }

  lemma ReadProbes(db: Db, k: Key)
    ensures MemProbes(db, k) + TableProbes(PointTables(db.levels, k), k) == ProbesOf(ChosenSources(db, k), k)
    ensures TableProbes(RangeTables(db.levels, k), k) == ProbesOf(RangedSources(db, k), k)
  {
  }

  lemma ChosenReadable(db: Db, k: Key)
    requires Ordered(db)
    ensures Readable(MemProbes(db, k) + TableProbes(PointTables(db.levels, k), k),
              TableProbes(RangeTables(db.levels, k), k))
  {
    ReadProbes(db, k);
    ChosenAreSources(db, k);
    ProbesReadable(db, k, ChosenSources(db, k), RangedSources(db, k));
  }

  /** Where the levels serve `k`, a read of it sees the whole database. */
  lemma ChosenSees(db: Db, k: Key)
    requires Ordered(db) && Served(db.levels, k)
    ensures ReadHistory(db, k) == DbHistory(db, k)
  {
    ReadProbes(db, k);
    ChosenConsults(db, k);
    ConsultedIsAll(db, k, ChosenSources(db, k), RangedSources(db, k));
  }

  lemma TreeEnds(levels: Tree)
    requires TablesOk(levels)
    ensures forall i :: 1 <= i < |levels| ==> EndsAscend(levels[i])
  {
    forall i | 1 <= i < |levels| ensures EndsAscend(levels[i]) { LevelEnds(levels[i]); }
  }

  /** A point read is the reference read of the sources chosen for its key. */
  method ReadDb(db: Db, op: MergeOp, k: Key, s: nat, now: int, earlyExit: bool) returns (r: Outcome)
    requires Ordered(db)
    ensures r == Read(Reader(op, k, now), ReadHistory(db, k), s)
    ensures Served(db.levels, k) ==> r == Read(Reader(op, k, now), DbHistory(db, k), s)
  {
    TreeEnds(db.levels);
    ChosenReadable(db, k);
    var tables, ranged := PointReadSources(db.levels, k);
    r := Get(op, k, MemProbes(db, k), TableProbes(tables, k), TableProbes(ranged, k), s, now, earlyExit);
    if Served(db.levels, k) { ChosenSees(db, k); }
  }

  lemma {:induction false} RunOrdered(op: MergeOp, start: int, events: seq<Event>)
    requires Runs(Start(start), op, events)
    ensures Ordered(After(Start(start), events))
  {
    StartHolds(op, start);
    RunKeeps(Start(start), op, events);
  }

  /** After any run, a point read of a served key answers from the log of committed batches. */
  method ReadAfterRun(op: MergeOp, start: int, events: seq<Event>, k: Key, s: nat, now: int, earlyExit: bool)
    returns (r: Outcome)
    requires Associative(op) && Runs(Start(start), op, events) && CleanRun(events, k)
    requires Served(After(Start(start), events).levels, k)
    requires now >= After(Start(start), events).now && s >= After(Start(start), events).oldest
    ensures r == Read(Reader(op, k, now), LogHistory(After(Start(start), events), k), s)
  {
    RunOrdered(op, start, events);
    ReadsAreTheLog(op, start, events, k, now, s);
    r := ReadDb(After(Start(start), events), op, k, s, now, earlyExit);
  }
}
