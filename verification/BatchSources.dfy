/** Planning a batch of reads: tables grouped per level replay each key's own plan. */
module BatchSources {
  import opened Semantics
  import opened Tables
  import opened Levels
  import opened Lookup
  import opened DbRead

  /** A candidate table with the result indices whose keys it covers. */
  datatype Group = Group(table: Table, idxs: seq<nat>)

  /** Groups are not empty and name results of the batch. */
  ghost predicate Indexed(groups: seq<Group>, n: nat)
  {
    forall g :: g in groups ==> g.idxs != [] && forall i :: i in g.idxs ==> i < n
  }

  /** The tables of one key, in the batch's order. */
  function Replay(groups: seq<Group>, i: nat): seq<Table>
  {
    if groups == [] then []
    else (if i in groups[0].idxs then [groups[0].table] else []) + Replay(groups[1..], i)
  }

  lemma {:induction false} ReplayConcat(a: seq<Group>, b: seq<Group>, i: nat)
    ensures Replay(a + b, i) == Replay(a, i) + Replay(b, i)
  {
    if a == [] {
      assert a + b == b;
    } else {
      assert (a + b)[1..] == a[1..] + b;
      ReplayConcat(a[1..], b, i);
    }
  }

  lemma {:induction false} ReplayHas(groups: seq<Group>, g: Group, i: nat)
    requires g in groups && i in g.idxs
    ensures g.table in Replay(groups, i)
  {
    if g != groups[0] { ReplayHas(groups[1..], g, i); }
  }

  lemma {:induction false} ReplayFrom(groups: seq<Group>, i: nat, t: Table) returns (g: Group)
    requires t in Replay(groups, i)
    ensures g in groups && i in g.idxs && g.table == t
  {
    if i in groups[0].idxs && groups[0].table == t {
      g := groups[0];
    } else {
      g := ReplayFrom(groups[1..], i, t);
    }
  }

  /** One more group at the end. */
  lemma {:induction false} ReplaySnoc(groups: seq<Group>, g: Group, i: nat)
    ensures Replay(groups + [g], i) == Replay(groups, i) + if i in g.idxs then [g.table] else []
  {
    ReplayConcat(groups, [g], i);
  }

  /** A table no key selects is not listed. */
  function AddGroup(groups: seq<Group>, t: Table, idxs: seq<nat>): seq<Group>
  {
    if idxs == [] then groups else groups + [Group(t, idxs)]
  }

  lemma {:induction false} ReplayAdd(groups: seq<Group>, t: Table, idxs: seq<nat>, i: nat)
    ensures Replay(AddGroup(groups, t, idxs), i) == Replay(groups, i) + if i in idxs then [t] else []
  {
    ReplaySnoc(groups, Group(t, idxs), i);
  }

  // ---- L0 -----------------------------------------------------------------------------------

  method SelectKeys(t: Table, keys: seq<Key>) returns (idxs: seq<nat>, rangeIdxs: seq<nat>)
    ensures forall i: nat :: i in idxs <==> i < |keys| && KeyInRange(t, keys[i])
    ensures forall i: nat :: i in rangeIdxs <==> i < |keys| && RangeOnly(t, keys[i])
  {
    idxs, rangeIdxs := [], [];
    var n := 0;
    while n < |keys|
      invariant 0 <= n <= |keys|
      invariant forall i: nat :: i in idxs <==> i < n && KeyInRange(t, keys[i])
      invariant forall i: nat :: i in rangeIdxs <==> i < n && RangeOnly(t, keys[i])
    {
      if KeyInRange(t, keys[n]) {
        idxs := idxs + [n];
      } else if HasRanges(t) && SpanMin(t) <= keys[n] <= SpanMax(t) {
        rangeIdxs := rangeIdxs + [n];
      }
      n := n + 1;
    }
  }

  method BatchL0(l0: seq<Table>, keys: seq<Key>) returns (tables: seq<Group>, ranged: seq<Group>)
    ensures forall i :: 0 <= i < |keys| ==> Replay(tables, i) == L0Tables(l0, keys[i])
    ensures forall i :: 0 <= i < |keys| ==> Replay(ranged, i) == L0Ranged(l0, keys[i])
    ensures Indexed(tables, |keys|) && Indexed(ranged, |keys|)
  {
    tables, ranged := [], [];
    var n := 0;
    while n < |l0|
      invariant 0 <= n <= |l0| && Indexed(tables, |keys|) && Indexed(ranged, |keys|)
      invariant forall i :: 0 <= i < |keys| ==> Replay(tables, i) + L0Tables(l0[n..], keys[i]) == L0Tables(l0, keys[i])
      invariant forall i :: 0 <= i < |keys| ==> Replay(ranged, i) + L0Ranged(l0[n..], keys[i]) == L0Ranged(l0, keys[i])
    {
      var idxs, rangeIdxs := SelectKeys(l0[n], keys);
      forall i | 0 <= i < |keys|
        ensures Replay(AddGroup(tables, l0[n], idxs), i) + L0Tables(l0[n + 1..], keys[i]) == L0Tables(l0, keys[i])
        ensures Replay(AddGroup(ranged, l0[n], rangeIdxs), i) + L0Ranged(l0[n + 1..], keys[i]) == L0Ranged(l0, keys[i])
      {
        L0Step(l0, n, keys[i], Replay(tables, i), Replay(ranged, i));
        ReplayAdd(tables, l0[n], idxs, i);
        ReplayAdd(ranged, l0[n], rangeIdxs, i);
      }
      tables, ranged := AddGroup(tables, l0[n], idxs), AddGroup(ranged, l0[n], rangeIdxs);
      n := n + 1;
    }
  }

  // ---- sorted levels ------------------------------------------------------------------------

  /** A key's hit: table position, key index. */
  datatype Pair = Pair(pos: nat, idx: nat)

  predicate PairBefore(a: Pair, b: Pair)
  {
    a.pos < b.pos || (a.pos == b.pos && a.idx <= b.idx)
  }

  function InsertPair(ps: seq<Pair>, p: Pair): seq<Pair>
  {
    if ps == [] || PairBefore(p, ps[0]) then [p] + ps else [ps[0]] + InsertPair(ps[1..], p)
  }

  function SortPairs(ps: seq<Pair>): seq<Pair>
  {
    if ps == [] then [] else InsertPair(SortPairs(ps[1..]), ps[0])
  }

  /** A key index occurs at most once. */
  predicate OncePerKey(ps: seq<Pair>)
  {
    forall a, b :: 0 <= a < b < |ps| ==> ps[a].idx != ps[b].idx
  }

  lemma {:induction false} InsertOnce(ps: seq<Pair>, p: Pair)
    requires OncePerKey(ps) && forall q :: q in ps ==> q.idx != p.idx
    ensures OncePerKey(InsertPair(ps, p))
    ensures forall q :: q in InsertPair(ps, p) <==> q == p || q in ps
  {
    if ps != [] && !PairBefore(p, ps[0]) {
      InsertOnce(ps[1..], p);
      var rest := InsertPair(ps[1..], p);
      forall b | 0 <= b < |rest| ensures rest[b].idx != ps[0].idx { assert rest[b] in rest; }
    }
  }

  lemma {:induction false} SortOnce(ps: seq<Pair>)
    requires OncePerKey(ps)
    ensures OncePerKey(SortPairs(ps)) && forall q :: q in SortPairs(ps) <==> q in ps
  {
    if ps == [] {
    } else {
      SortOnce(ps[1..]);
      InsertOnce(SortPairs(ps[1..]), ps[0]);
    }
  }

  /** The tables a pair list gives key `i`. */
  function Picks(level: seq<Table>, ps: seq<Pair>, i: nat): seq<Table>
  {
    if ps == [] then [] else (if ps[0].idx == i then At(level, Some(ps[0].pos)) else []) + Picks(level, ps[1..], i)
  }

  lemma {:induction false} PicksConcat(level: seq<Table>, a: seq<Pair>, b: seq<Pair>, i: nat)
    ensures Picks(level, a + b, i) == Picks(level, a, i) + Picks(level, b, i)
  {
    if a == [] {
      assert a + b == b;
    } else {
      assert (a + b)[1..] == a[1..] + b;
      PicksConcat(level, a[1..], b, i);
    }
  }

  lemma {:induction false} PicksNone(level: seq<Table>, ps: seq<Pair>, i: nat)
    requires forall q :: q in ps ==> q.idx != i
    ensures Picks(level, ps, i) == []
  {
    if ps == [] {
    } else {
      PicksNone(level, ps[1..], i);
    }
  }

  lemma {:induction false} PicksOne(level: seq<Table>, ps: seq<Pair>, p: Pair)
    requires OncePerKey(ps) && p in ps
    ensures Picks(level, ps, p.idx) == At(level, Some(p.pos))
  {
    if ps[0] == p {
      forall q | q in ps[1..] ensures q.idx != p.idx { var a :| 0 <= a < |ps[1..]| && ps[1..][a] == q; }
      PicksNone(level, ps[1..], p.idx);
    } else {
      PicksOne(level, ps[1..], p);
    }
  }

  /** `group_level_hits`: one entry per run of equal positions. */
  method GroupLevelHits(out: seq<Group>, level: seq<Table>, pairs: seq<Pair>, ghost keys: nat) returns (r: seq<Group>)
    requires OncePerKey(pairs) && (forall q :: q in pairs ==> q.pos < |level| && q.idx < keys) && Indexed(out, keys)
    ensures Indexed(r, keys)
    ensures forall i: nat :: Replay(r, i) == Replay(out, i) + Picks(level, pairs, i)
  {
    hide OncePerKey, Replay, At;
    r := out;
    var at := 0;
    while at < |pairs|
      invariant 0 <= at <= |pairs| && Indexed(r, keys)
      invariant forall i: nat :: Replay(r, i) + Picks(level, pairs[at..], i) == Replay(out, i) + Picks(level, pairs, i)
    {
      var t := pairs[at].pos;
      assert pairs[at] in pairs;
      var idxs: seq<nat> := [];
      ghost var from := at;
      while at < |pairs| && pairs[at].pos == t
        invariant from <= at <= |pairs| && (at == from ==> pairs[from].pos == t)
        invariant forall a :: from <= a < at ==> pairs[a].pos == t
        invariant (at > from ==> idxs != []) && forall i :: i in idxs ==> i < keys
        invariant forall i :: i in idxs <==> exists a :: from <= a < at && pairs[a].idx == i
        decreases |pairs| - at
      {
        assert pairs[at] in pairs;
        idxs := idxs + [pairs[at].idx];
        at := at + 1;
      }
      ghost var before := r;
      r := r + [Group(level[t], idxs)];
      forall i: nat ensures Replay(r, i) + Picks(level, pairs[at..], i) == Replay(out, i) + Picks(level, pairs, i) {
        RunPicks(level, pairs, from, at, t, i, idxs);
        ReplaySnoc(before, Group(level[t], idxs), i);
      }
    }
  }

  /** A run of one position gives each of its keys that table once. */
  lemma {:induction false} RunPicks(level: seq<Table>, pairs: seq<Pair>, from: nat, upto: nat, t: nat, i: nat,
                                    idxs: seq<nat>)
    requires OncePerKey(pairs) && from <= upto <= |pairs| && t < |level|
    requires forall a :: from <= a < upto ==> pairs[a].pos == t
    requires i in idxs <==> exists a :: from <= a < upto && pairs[a].idx == i
    ensures Picks(level, pairs[from..], i) == (if i in idxs then [level[t]] else []) + Picks(level, pairs[upto..], i)
  {
    var run := pairs[from..upto];
    assert pairs[from..] == run + pairs[upto..];
    PicksConcat(level, run, pairs[upto..], i);
    if i in idxs {
      var a :| from <= a < upto && pairs[a].idx == i;
      assert run[a - from] == pairs[a];
      PicksOne(level, run, pairs[a]);
    } else {
      forall q | q in run ensures q.idx != i { var a :| 0 <= a < |run| && run[a] == q; assert pairs[from + a] == q; }
      PicksNone(level, run, i);
    }
  }

  function WithPair(ps: seq<Pair>, pos: Option<nat>, i: nat): seq<Pair>
  {
    if pos.Some? then ps + [Pair(pos.value, i)] else ps
  }

  lemma AppendPair(ps: seq<Pair>, pos: Option<nat>, i: nat)
    requires OncePerKey(ps) && forall q :: q in ps ==> q.idx < i
    ensures OncePerKey(WithPair(ps, pos, i))
    ensures forall q :: q in WithPair(ps, pos, i) <==> q in ps || (q.idx == i && pos == Some(q.pos))
  {
    assert forall a :: 0 <= a < |ps| ==> ps[a] in ps;
  }

  /** Search a level for every key of the batch. */
  method LevelHits(level: seq<Table>, keys: seq<Key>) returns (hits: seq<Pair>, gaps: seq<Pair>)
    requires EndsAscend(level)
    ensures OncePerKey(hits) && forall q :: q in hits <==> q.idx < |keys| && Hit(level, keys[q.idx]) == Some(q.pos)
    ensures OncePerKey(gaps) && forall q :: q in gaps <==> q.idx < |keys| && Gap(level, keys[q.idx]) == Some(q.pos)
  {
    hits, gaps := [], [];
    var i := 0;
    while i < |keys|
      invariant 0 <= i <= |keys|
      invariant OncePerKey(hits) && forall q :: q in hits <==> q.idx < i && Hit(level, keys[q.idx]) == Some(q.pos)
      invariant OncePerKey(gaps) && forall q :: q in gaps <==> q.idx < i && Gap(level, keys[q.idx]) == Some(q.pos)
    {
      var hit, lo := FindOverlappingAt(level, keys[i]);
      var gap := GapOwner(level, keys[i], hit, lo);
      AppendPair(hits, hit, i);
      AppendPair(gaps, gap, i);
      hits, gaps := WithPair(hits, hit, i), WithPair(gaps, gap, i);
      i := i + 1;
    }
  }

  /** Sorting and grouping a level's pairs gives each key its own table. */
  lemma {:induction false} SortedPicks(level: seq<Table>, ps: seq<Pair>, found: seq<Option<nat>>, i: nat)
    requires OncePerKey(ps) && i < |found| && (found[i].Some? ==> found[i].value < |level|)
    requires forall q :: q in ps <==> q.idx < |found| && found[q.idx] == Some(q.pos)
    ensures Picks(level, SortPairs(ps), i) == At(level, found[i])
  {
    SortOnce(ps);
    if found[i].Some? {
      PicksOne(level, SortPairs(ps), Pair(found[i].value, i));
    } else {
      PicksNone(level, SortPairs(ps), i);
    }
  }

  method BatchLevel(tables: seq<Group>, ranged: seq<Group>, level: seq<Table>, keys: seq<Key>)
    returns (ts: seq<Group>, rs: seq<Group>)
    requires EndsAscend(level) && Indexed(tables, |keys|) && Indexed(ranged, |keys|)
    ensures Indexed(ts, |keys|) && Indexed(rs, |keys|)
    ensures forall i :: 0 <= i < |keys| ==> Replay(ts, i) == Replay(tables, i) + At(level, Hit(level, keys[i]))
    ensures forall i :: 0 <= i < |keys| ==> Replay(rs, i) == Replay(ranged, i) + At(level, Gap(level, keys[i]))
  {
    hide At, Replay;
    var hits, gaps := LevelHits(level, keys);
    SortOnce(hits);
    SortOnce(gaps);
    ts := GroupLevelHits(tables, level, SortPairs(hits), |keys|);
    rs := GroupLevelHits(ranged, level, SortPairs(gaps), |keys|);
    ghost var hitOf := seq(|keys|, i requires 0 <= i < |keys| => Hit(level, keys[i]));
    ghost var gapOf := seq(|keys|, i requires 0 <= i < |keys| => Gap(level, keys[i]));
    forall i | 0 <= i < |keys|
      ensures Replay(ts, i) == Replay(tables, i) + At(level, Hit(level, keys[i]))
      ensures Replay(rs, i) == Replay(ranged, i) + At(level, Gap(level, keys[i]))
    {
      SortedPicks(level, hits, hitOf, i);
      SortedPicks(level, gaps, gapOf, i);
    }
  }

  /** `batch_read_sources`: replaying one key out of the batch is that key's own plan. */
  method BatchReadSources(levels: Tree, keys: seq<Key>) returns (tables: seq<Group>, ranged: seq<Group>)
    requires forall i :: 1 <= i < |levels| ==> EndsAscend(levels[i])
    ensures forall i :: 0 <= i < |keys| ==> Replay(tables, i) == PointTables(levels, keys[i])
    ensures forall i :: 0 <= i < |keys| ==> Replay(ranged, i) == RangeTables(levels, keys[i])
    ensures Indexed(tables, |keys|) && Indexed(ranged, |keys|)
  {
    if levels == [] {
      return [], [];
    }
    tables, ranged := BatchL0(levels[0], keys);
    var n := 1;
    while n < |levels|
      invariant 1 <= n <= |levels| && Indexed(tables, |keys|) && Indexed(ranged, |keys|)
      invariant forall i :: 0 <= i < |keys| ==>
                  Replay(tables, i) + HitTables(levels[n..], keys[i]) == PointTables(levels, keys[i])
      invariant forall i :: 0 <= i < |keys| ==>
                  Replay(ranged, i) + GapTables(levels[n..], keys[i]) == RangeTables(levels, keys[i])
    {
      var ts, rs := BatchLevel(tables, ranged, levels[n], keys);
      forall i | 0 <= i < |keys|
        ensures Replay(ts, i) + HitTables(levels[n + 1..], keys[i]) == PointTables(levels, keys[i])
        ensures Replay(rs, i) + GapTables(levels[n + 1..], keys[i]) == RangeTables(levels, keys[i])
      {
        TreeStep(levels, n, keys[i], Replay(tables, i), Replay(ranged, i));
      }
      tables, ranged := ts, rs;
      n := n + 1;
    }
  }
}
