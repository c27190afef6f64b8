/** `multi_get`: a batch resolved table by table equals its keys read one by one. */
module MultiGet {
  import opened Semantics
  import opened Tables
  import opened Sources
  import opened Engine
  import opened EngineFacts
  import opened PointRead
  import opened GetImpl
  import opened DbRead
  import opened BatchSources
  import opened BatchLookup

  /** What a single read of each key of the batch sees. */
  function Truth(db: Db, keys: seq<Key>): (r: seq<History>)
    ensures |r| == |keys| && forall i :: 0 <= i < |keys| ==> r[i] == ReadHistory(db, keys[i])
  {
    seq(|keys|, i requires 0 <= i < |keys| => ReadHistory(db, keys[i]))
  }

  lemma FitsOverlay(h: History, covers: set<nat>, p: Probe)
    requires Fits(h, p) && h.Keys !! covers
    ensures Fits(Overlay(h, covers), p)
  {
  }

  lemma SourceTrue(db: Db, s: Source, k: Key)
    requires Ordered(db) && s in ChosenSources(db, k)
    ensures Fits(ReadHistory(db, k), ProbeOf(s, k))
  {
    hide Ordered, Fits, ProbeOf, ChosenSources, RangedSources, PointTables, RangeTables, AreSources;
    var probed, ranged := ProbesOf(ChosenSources(db, k), k), ProbesOf(RangedSources(db, k), k);
    ReadProbes(db, k);
    ChosenAreSources(db, k);
    ChosenReadable(db, k);
    SourceFits(db, k, ChosenSources(db, k), s);
    FitsOverlay(Points(probed), Covers(probed + ranged), ProbeOf(s, k));
  }

  // ---- memtables ------------------------------------------------------------------------------

  method ProbeSource(db: Db, src: Source, cands: seq<Candidate>, keys: seq<Key>, s: nat, now: int,
                     ghost seen: seq<History>)
    returns (r: seq<Candidate>, ghost seen2: seq<History>)
    requires Ordered(db) && src in MemSources(db) && Steady(cands, seen, Truth(db, keys), s, now)
    ensures Steady(r, seen2, Truth(db, keys), s, now) && Grew(cands, seen, r, seen2)
    ensures forall i :: 0 <= i < |keys| ==> seen2[i] == seen[i] + ProbeOf(src, keys[i]).points
  {
    hide ReadHistory, Ordered, MemSources;
    ghost var truth := Truth(db, keys);
    r, seen2 := cands, seen;
    var i := 0;
    while i < |keys|
      invariant 0 <= i <= |keys| && Steady(r, seen2, truth, s, now) && Grew(cands, seen, r, seen2)
      invariant forall j :: 0 <= j < |keys| ==> seen2[j] == if j < i then seen[j] + ProbeOf(src, keys[j]).points
                  else seen[j]
    {
      ChosenIff(db, keys[i], src);
      MemSourceIff(db, src);
      SourceTrue(db, src, keys[i]);
      var points := ProbeOf(src, keys[i]).points;
      OfferOne(r, seen2, truth, i, points, s, now);
      ghost var c2, s2 := r[i := Considered(r[i], points, s, now)], seen2[i := seen2[i] + points];
      GrewTrans(cands, seen, r, seen2, c2, s2);
      r := r[i := Considered(r[i], points, s, now)];
      seen2 := s2;
      i := i + 1;
    }
  }

  ghost predicate SeesAll(seen: seq<History>, keys: seq<Key>, ss: seq<Source>)
    requires |seen| == |keys|
  {
    forall i, j :: 0 <= i < |keys| && 0 <= j < |ss| ==> Sees(seen[i], ProbeOf(ss[j], keys[i]).points)
  }

  /** Nothing in `h` is some source's range delete. */
  ghost predicate Uncovered(db: Db, k: Key, h: History)
  {
    forall n: nat, t :: n in h && IsSource(db, t) ==> n !in ProbeOf(t, k).covers
  }

  lemma UncoveredAdd(db: Db, k: Key, h: History, src: Source)
    requires Ordered(db) && IsSource(db, src) && Uncovered(db, k, h)
    ensures Uncovered(db, k, h + ProbeOf(src, k).points)
  {
    forall n: nat, t | n in h + ProbeOf(src, k).points && IsSource(db, t) ensures n !in ProbeOf(t, k).covers {
      if n in ProbeOf(src, k).points { PointAlone(db, src, t, k, n); }
    }
  }

  ghost predicate AllUncovered(db: Db, keys: seq<Key>, seen: seq<History>)
  {
    |seen| == |keys| && forall i :: 0 <= i < |keys| ==> Uncovered(db, keys[i], seen[i])
  }

  lemma SourceSeen(db: Db, keys: seq<Key>, ss: seq<Source>, src: Source, seen: seq<History>, s2: seq<History>)
    requires Ordered(db) && IsSource(db, src) && |s2| == |keys| && AllUncovered(db, keys, seen)
    requires SeesAll(seen, keys, ss)
    requires forall i :: 0 <= i < |keys| ==> s2[i] == seen[i] + ProbeOf(src, keys[i]).points
    ensures AllUncovered(db, keys, s2) && SeesAll(s2, keys, ss + [src])
  {
    forall i | 0 <= i < |keys| ensures Uncovered(db, keys[i], s2[i]) { UncoveredAdd(db, keys[i], seen[i], src); }
    forall i, j | 0 <= i < |keys| && 0 <= j < |ss + [src]|
      ensures Sees(s2[i], ProbeOf((ss + [src])[j], keys[i]).points)
    {
      if j < |ss| { assert Sees(seen[i], ProbeOf(ss[j], keys[i]).points); }
    }
  }

  method ProbeBatch(db: Db, keys: seq<Key>, s: nat, now: int) returns (r: seq<Candidate>, ghost seen: seq<History>)
    requires Ordered(db)
    ensures Steady(r, seen, Truth(db, keys), s, now) && AllUncovered(db, keys, seen)
    ensures SeesAll(seen, keys, MemSources(db))
    ensures forall i :: 0 <= i < |r| ==> r[i].rangeFloor == None
  {
    hide MemSources, ReadHistory, Ordered;
    var ss := MemSources(db);
    r := seq(|keys|, _ => NOTHING);
    seen := seq(|keys|, _ => map[]);
    var n := 0;
    while n < |ss|
      invariant 0 <= n <= |ss| && Steady(r, seen, Truth(db, keys), s, now)
      invariant AllUncovered(db, keys, seen) && SeesAll(seen, keys, ss[..n])
      invariant forall i :: 0 <= i < |r| ==> r[i].rangeFloor == None
    {
      MemSourceIff(db, ss[n]);
      ghost var before := seen;
      r, seen := ProbeSource(db, ss[n], r, keys, s, now, seen);
      SourceSeen(db, keys, ss[..n], ss[n], before, seen);
      assert ss[..n + 1] == ss[..n] + [ss[n]];
      n := n + 1;
    }
    assert ss[..|ss|] == ss;
  }

  // ---- coverage -------------------------------------------------------------------------------

  function Larger(a: Option<nat>, b: Option<nat>): Option<nat>
  {
    if b.None? then a else if a.None? || b.value > a.value then b else a
  }

  lemma LargerNewest(a: Option<nat>, b: Option<nat>, x: set<nat>, y: set<nat>, s: nat)
    requires NewestAtMost(a, x, s) && NewestAtMost(b, y, s)
    ensures NewestAtMost(Larger(a, b), x + y, s)
  {
  }

  /** One source's coverage of every key it was selected for. */
  method TakeCoverage(covering: seq<Option<nat>>, keys: seq<Key>, src: Source, idxs: seq<nat>, s: nat,
                      ghost known: seq<set<nat>>)
    returns (r: seq<Option<nat>>, ghost known2: seq<set<nat>>)
    requires |covering| == |keys| == |known| && forall i :: i in idxs ==> i < |keys|
    requires forall i :: 0 <= i < |keys| ==> NewestAtMost(covering[i], known[i], s)
    ensures |r| == |keys| == |known2|
    ensures forall i :: 0 <= i < |keys| ==> NewestAtMost(r[i], known2[i], s)
    ensures forall i :: 0 <= i < |keys| ==> known2[i] == known[i] + if i in idxs then ProbeOf(src, keys[i]).covers
              else {}
  {
    r, known2 := covering, known;
    var n := 0;
    while n < |idxs|
      invariant 0 <= n <= |idxs| && |r| == |keys| == |known2|
      invariant forall i :: 0 <= i < |keys| ==> NewestAtMost(r[i], known2[i], s)
      invariant forall i :: 0 <= i < |keys| ==>
                  known2[i] == known[i] + if i in idxs[..n] then ProbeOf(src, keys[i]).covers else {}
    {
      var i := idxs[n];
      assert i in idxs && idxs[..n + 1] == idxs[..n] + [i];
      var covers := ProbeOf(src, keys[i]).covers;
      LargerNewest(r[i], NewestOf(covers, s), known2[i], covers, s);
      r := r[i := Larger(r[i], NewestOf(covers, s))];
      known2 := known2[i := known2[i] + covers];
      n := n + 1;
    }
    assert idxs[..|idxs|] == idxs;
  }

  /** All result indices. */
  function Everyone(n: nat): (r: seq<nat>)
    ensures forall i: nat :: i in r <==> i < n
  {
    if n == 0 then [] else Everyone(n - 1) + [n - 1]
  }

  lemma {:induction false} ProbeCovers(a: seq<Probe>, b: seq<Probe>)
    ensures Covers(a + b) == Covers(a) + Covers(b)
  {
    if a == [] {
      assert a + b == b;
    } else {
      assert (a + b)[1..] == a[1..] + b;
      ProbeCovers(a[1..], b);
    }
  }

  lemma CoversSnoc(ss: seq<Source>, src: Source, k: Key)
    ensures Covers(ProbesOf(ss + [src], k)) == Covers(ProbesOf(ss, k)) + ProbeOf(src, k).covers
  {
    assert ProbesOf(ss + [src], k) == ProbesOf(ss, k) + [ProbeOf(src, k)];
    ProbeCovers(ProbesOf(ss, k), [ProbeOf(src, k)]);
  }

  method CoverMemtables(db: Db, keys: seq<Key>, s: nat) returns (covering: seq<Option<nat>>, ghost known: seq<set<nat>>)
    ensures |covering| == |keys| == |known|
    ensures forall i :: 0 <= i < |keys| ==> NewestAtMost(covering[i], known[i], s)
    ensures forall i :: 0 <= i < |keys| ==> known[i] == Covers(MemProbes(db, keys[i]))
  {
    var ss := MemSources(db);
    covering := seq(|keys|, _ => None);
    known := seq(|keys|, _ => {});
    var n := 0;
    while n < |ss|
      invariant 0 <= n <= |ss| && |covering| == |keys| == |known|
      invariant forall i :: 0 <= i < |keys| ==> NewestAtMost(covering[i], known[i], s)
      invariant forall i :: 0 <= i < |keys| ==> known[i] == Covers(ProbesOf(ss[..n], keys[i]))
    {
      covering, known := TakeCoverage(covering, keys, ss[n], Everyone(|keys|), s, known);
      assert ss[..n + 1] == ss[..n] + [ss[n]];
      forall i | 0 <= i < |keys|
        ensures known[i] == Covers(ProbesOf(ss[..n + 1], keys[i]))
      {
        CoversSnoc(ss[..n], ss[n], keys[i]);
      }
      n := n + 1;
    }
    assert ss[..|ss|] == ss;
  }

  lemma {:induction false} ReplayCovers(groups: seq<Group>, g: Group, i: nat, k: Key)
    ensures Covers(TableProbes(Replay(groups + [g], i), k)) ==
            Covers(TableProbes(Replay(groups, i), k)) + if i in g.idxs then ProbeOf(OnDisk(g.table), k).covers else {}
  {
    ReplaySnoc(groups, g, i);
    var ts := Replay(groups, i);
    if i in g.idxs {
      assert TableSources(ts + [g.table]) == TableSources(ts) + [OnDisk(g.table)];
      CoversSnoc(TableSources(ts), OnDisk(g.table), k);
    } else {
      assert ts + [] == ts;
    }
  }

  method CoverGroups(groups: seq<Group>, keys: seq<Key>, s: nat, covering: seq<Option<nat>>, ghost known: seq<set<nat>>)
    returns (r: seq<Option<nat>>, ghost known2: seq<set<nat>>)
    requires |covering| == |keys| == |known| && Indexed(groups, |keys|)
    requires forall i :: 0 <= i < |keys| ==> NewestAtMost(covering[i], known[i], s)
    ensures |r| == |keys| == |known2|
    ensures forall i :: 0 <= i < |keys| ==> NewestAtMost(r[i], known2[i], s)
    ensures forall i :: 0 <= i < |keys| ==> known2[i] == known[i] + Covers(TableProbes(Replay(groups, i), keys[i]))
  {
    r, known2 := covering, known;
    var n := 0;
    while n < |groups|
      invariant 0 <= n <= |groups| && |r| == |keys| == |known2|
      invariant forall i :: 0 <= i < |keys| ==> NewestAtMost(r[i], known2[i], s)
      invariant forall i :: 0 <= i < |keys| ==>
                  known2[i] == known[i] + Covers(TableProbes(Replay(groups[..n], i), keys[i]))
    {
      var g := groups[n];
      assert g in groups && groups[..n + 1] == groups[..n] + [g];
      r, known2 := TakeCoverage(r, keys, OnDisk(g.table), g.idxs, s, known2);
      forall i | 0 <= i < |keys|
        ensures known2[i] == known[i] + Covers(TableProbes(Replay(groups[..n + 1], i), keys[i]))
      {
        ReplayCovers(groups[..n], g, i, keys[i]);
      }
      n := n + 1;
    }
    assert groups[..|groups|] == groups;
  }

  /** The range deletes over key `i` that the batch consults. */
  ghost function BatchCovers(db: Db, k: Key, tables: seq<Table>, ranged: seq<Table>): set<nat>
  {
    Covers(MemProbes(db, k) + TableProbes(tables, k) + TableProbes(ranged, k))
  }

  /** `batch_covering_range_seqs`. */
  method BatchCovering(db: Db, keys: seq<Key>, tables: seq<Group>, ranged: seq<Group>, s: nat)
    returns (covering: seq<Option<nat>>)
    requires Indexed(tables, |keys|) && Indexed(ranged, |keys|)
    ensures |covering| == |keys|
    ensures forall i :: 0 <= i < |keys| ==>
              NewestAtMost(covering[i], BatchCovers(db, keys[i], Replay(tables, i), Replay(ranged, i)), s)
  {
    ghost var known;
    covering, known := CoverMemtables(db, keys, s);
    covering, known := CoverGroups(tables, keys, s, covering, known);
    covering, known := CoverGroups(ranged, keys, s, covering, known);
    forall i | 0 <= i < |keys| ensures known[i] == BatchCovers(db, keys[i], Replay(tables, i), Replay(ranged, i)) {
      var k := keys[i];
      ProbeCovers(MemProbes(db, k) + TableProbes(Replay(tables, i), k), TableProbes(Replay(ranged, i), k));
      ProbeCovers(MemProbes(db, k), TableProbes(Replay(tables, i), k));
    }
  }

  // ---- masking and tables ----------------------------------------------------------------------

  ghost function KeyCovers(db: Db, k: Key): set<nat>
  {
    BatchCovers(db, k, PointTables(db.levels, k), RangeTables(db.levels, k))
  }

  lemma CoverSource(db: Db, k: Key, n: nat) returns (t: Source)
    requires n in KeyCovers(db, k)
    ensures IsSource(db, t) && n in ProbeOf(t, k).covers
  {
    hide ChosenSources, RangedSources, PointTables, RangeTables;
    var probed, ranged := ChosenSources(db, k), RangedSources(db, k);
    ReadProbes(db, k);
    ChosenAreSources(db, k);
    assert ProbesOf(probed, k) + ProbesOf(ranged, k) == ProbesOf(probed + ranged, k);
    t := CoverFrom(probed + ranged, k, n);
  }

  lemma CoverTrue(db: Db, k: Key, n: nat)
    requires n in KeyCovers(db, k)
    ensures n in ReadHistory(db, k) && ReadHistory(db, k)[n] == Tombstone(false)
  {
    hide MemProbes, TableProbes, Covers, Points;
  }

  lemma MaskOne(db: Db, k: Key, c: Candidate, seen: History, covering: Option<nat>, s: nat, now: int)
    requires Uncovered(db, k, seen) && Shows(c, seen, s, now) && Within(seen, ReadHistory(db, k))
    requires NewestAtMost(covering, KeyCovers(db, k), s)
    ensures Shows(Masked(c, covering), Overlay(seen, KeyCovers(db, k)), s, now)
    ensures Within(Overlay(seen, KeyCovers(db, k)), ReadHistory(db, k))
  {
    forall n | n in KeyCovers(db, k) ensures n !in seen { var t := CoverSource(db, k, n); }
    forall n | n in KeyCovers(db, k)
      ensures n in ReadHistory(db, k) && ReadHistory(db, k)[n] == Tombstone(false)
    {
      CoverTrue(db, k, n);
    }
    MaskedShows(c, seen, covering, KeyCovers(db, k), s, now);
  }

  method MaskBatch(db: Db, keys: seq<Key>, cands: seq<Candidate>, covering: seq<Option<nat>>, s: nat, now: int,
                   ghost seen: seq<History>)
    returns (r: seq<Candidate>, ghost seen2: seq<History>)
    requires Steady(cands, seen, Truth(db, keys), s, now) && AllUncovered(db, keys, seen)
    requires |covering| == |keys|
    requires forall i :: 0 <= i < |keys| ==> NewestAtMost(covering[i], KeyCovers(db, keys[i]), s)
    requires forall i :: 0 <= i < |cands| ==> cands[i].rangeFloor == None
    ensures Steady(r, seen2, Truth(db, keys), s, now)
    ensures forall i :: 0 <= i < |keys| ==>
              r[i].rangeFloor == covering[i] && seen2[i] == Overlay(seen[i], KeyCovers(db, keys[i]))
  {
    hide ReadHistory, KeyCovers, BatchCovers;
    r, seen2 := cands, seen;
    var i := 0;
    while i < |keys|
      invariant 0 <= i <= |keys| && Steady(r, seen2, Truth(db, keys), s, now)
      invariant forall j :: 0 <= j < i ==>
                  r[j].rangeFloor == covering[j] && seen2[j] == Overlay(seen[j], KeyCovers(db, keys[j]))
      invariant forall j :: i <= j < |keys| ==> r[j] == cands[j] && seen2[j] == seen[j]
    {
      MaskOne(db, keys[i], r[i], seen[i], covering[i], s, now);
      r := r[i := Masked(r[i], covering[i])];
      seen2 := seen2[i := Overlay(seen[i], KeyCovers(db, keys[i]))];
      i := i + 1;
    }
  }

  lemma {:induction false} GroupsTrue(db: Db, keys: seq<Key>, groups: seq<Group>)
    requires Ordered(db) && forall i :: 0 <= i < |keys| ==> Replay(groups, i) == PointTables(db.levels, keys[i])
    ensures forall g, i :: g in groups && i in g.idxs && i < |keys| ==>
              Fits(Truth(db, keys)[i], ProbeOf(OnDisk(g.table), keys[i]))
  {
    hide Ordered, Fits, ReadHistory, ChosenSources, RangedSources, PointTables, RangeTables;
    forall g, i | g in groups && i in g.idxs && i < |keys|
      ensures Fits(Truth(db, keys)[i], ProbeOf(OnDisk(g.table), keys[i]))
    {
      ReplayHas(groups, g, i);
      ChosenIff(db, keys[i], OnDisk(g.table));
      SourceTrue(db, OnDisk(g.table), keys[i]);
    }
  }

  /** Once its memtables, coverage and tables are in, a candidate has seen what a single read sees. */
  lemma SeenIsTruth(db: Db, k: Key, seen: History)
    requires Within(seen, ReadHistory(db, k))
    requires Considers(seen, MemProbes(db, k)) && Considers(seen, TableProbes(PointTables(db.levels, k), k))
    requires forall n :: n in KeyCovers(db, k) ==> n in seen
    ensures seen == ReadHistory(db, k)
  {
    var mems, tabs, rans := MemProbes(db, k), TableProbes(PointTables(db.levels, k), k),
        TableProbes(RangeTables(db.levels, k), k);
    ConsidersConcat(seen, mems, tabs);
    AllConsidered(seen, mems + tabs, rans);
  }

  lemma {:induction false} ReplayConsiders(seen: seq<History>, keys: seq<Key>, groups: seq<Group>, i: nat)
    requires |seen| == |keys| && i < |keys| && SeesTables(seen, keys, groups)
    ensures Considers(seen[i], TableProbes(Replay(groups, i), keys[i]))
  {
    var ts := Replay(groups, i);
    forall j, n | 0 <= j < |ts| && n in TableProbes(ts, keys[i])[j].points ensures n in seen[i] {
      assert ts[j] in ts;
      var g := ReplayFrom(groups, i, ts[j]);
      assert Sees(seen[i], TablePoints(g.table, keys[i]));
    }
  }

  lemma MemsConsider(db: Db, seen: seq<History>, keys: seq<Key>, i: nat)
    requires |seen| == |keys| && i < |keys| && SeesAll(seen, keys, MemSources(db))
    ensures Considers(seen[i], MemProbes(db, keys[i]))
  {
    var ss := MemSources(db);
    forall j, n | 0 <= j < |ss| && n in MemProbes(db, keys[i])[j].points ensures n in seen[i] {
      assert Sees(seen[i], ProbeOf(ss[j], keys[i]).points);
    }
  }

  /** The candidate pass of the batch. */
  method ResolveBatch(db: Db, keys: seq<Key>, s: nat, now: int, block: (Table, Key) -> nat)
    returns (cands: seq<Candidate>, tables: seq<Group>)
    requires Ordered(db)
    ensures |cands| == |keys|
    ensures forall i :: 0 <= i < |keys| ==> Shows(cands[i], ReadHistory(db, keys[i]), s, now)
    ensures forall i :: 0 <= i < |keys| ==> NewestAtMost(cands[i].rangeFloor, KeyCovers(db, keys[i]), s)
    ensures forall i :: 0 <= i < |keys| ==> Replay(tables, i) == PointTables(db.levels, keys[i])
  {
    TreeEnds(db.levels);
    var ranged;
    tables, ranged := BatchReadSources(db.levels, keys);
    ghost var probed, masked, seen;
    cands, probed := ProbeBatch(db, keys, s, now);
    var covering := BatchCovering(db, keys, tables, ranged, s);
    cands, masked := MaskBatch(db, keys, cands, covering, s, now, probed);
    GroupsTrue(db, keys, tables);
    cands, seen := VisitTables(cands, keys, tables, block, s, now, masked, Truth(db, keys));
    forall i | 0 <= i < |keys| ensures seen[i] == ReadHistory(db, keys[i]) {
      MemsConsider(db, probed, keys, i);
      ReplayConsiders(seen, keys, tables, i);
      assert Within(masked[i], seen[i]);
      forall n | n in KeyCovers(db, keys[i]) ensures n in seen[i] { assert n in masked[i]; }
      forall j, n | 0 <= j < |MemProbes(db, keys[i])| && n in MemProbes(db, keys[i])[j].points ensures n in seen[i] {
        assert n in probed[i] && n in masked[i];
      }
      SeenIsTruth(db, keys[i], seen[i]);
    }
  }

  /** One candidate's outcome: an operand folds its chain, anything else answers by itself. */
  method AnswerOne(db: Db, op: MergeOp, k: Key, c: Candidate, tables: seq<Table>, s: nat, now: int)
    returns (answer: Outcome)
    requires Ordered(db)
    requires Shows(c, ReadHistory(db, k), s, now) && NewestAtMost(c.rangeFloor, KeyCovers(db, k), s)
    requires tables == PointTables(db.levels, k)
    ensures answer == Read(Reader(op, k, now), ReadHistory(db, k), s)
  {
    hide PointTables, RangeTables, MemProbes, TableProbes;
    NewestAnswers(ReadHistory(db, k), s, Reader(op, k, now));
    ChosenReadable(db, k);
    if c.operand {
      answer := FoldPointChain(op, k, MemProbes(db, k) + TableProbes(tables, k), s, now, c.rangeFloor,
          KeyCovers(db, k));
    } else {
      answer := if c.found && !c.deleted then Found(c.value) else NotFound;
    }
  }

  /** `multi_get`: each result is its key's single read, repeated keys included. */
  method MultiGet(db: Db, op: MergeOp, keys: seq<Key>, s: nat, now: int, block: (Table, Key) -> nat)
    returns (r: seq<Outcome>)
    requires Ordered(db)
    ensures |r| == |keys|
    ensures forall i :: 0 <= i < |keys| ==> r[i] == Read(Reader(op, keys[i], now), ReadHistory(db, keys[i]), s)
    ensures forall i :: 0 <= i < |keys| && Served(db.levels, keys[i]) ==>
              r[i] == Read(Reader(op, keys[i], now), DbHistory(db, keys[i]), s)
  {
    hide Read, ReadHistory, DbHistory, Served, Shows, NewestAtMost, KeyCovers, Replay, PointTables, Ordered;
    var cands, tables := ResolveBatch(db, keys, s, now, block);
    r := [];
    var i := 0;
    while i < |keys|
      invariant 0 <= i <= |keys| && |r| == i
      invariant forall j :: 0 <= j < i ==> r[j] == Read(Reader(op, keys[j], now), ReadHistory(db, keys[j]), s)
    {
      var answer := AnswerOne(db, op, keys[i], cands[i], Replay(tables, i), s, now);
      r := r + [answer];
      i := i + 1;
    }
    forall j | 0 <= j < |keys| && Served(db.levels, keys[j])
      ensures ReadHistory(db, keys[j]) == DbHistory(db, keys[j])
    {
      ChosenSees(db, keys[j]);
    }
  }
}
