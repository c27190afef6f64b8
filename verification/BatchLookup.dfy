/** Resolving a batch table by table: the lookups one table serves, in block order. */
module BatchLookup {
  import opened Semantics
  import opened Tables
  import opened Sources
  import opened PointRead
  import opened GetImpl
  import opened DbRead
  import opened BatchSources

  /** Every candidate shows the newest of what it has seen, all of it true of its key. */
  ghost predicate Steady(cands: seq<Candidate>, seen: seq<History>, truth: seq<History>, s: nat, now: int)
  {
    && |cands| == |seen| == |truth|
    && forall i :: 0 <= i < |cands| ==> Shows(cands[i], seen[i], s, now) && Within(seen[i], truth[i])
  }

  /** Candidates only learn, and keep their range floors. */
  ghost predicate Grew(cands: seq<Candidate>, seen: seq<History>, cands2: seq<Candidate>, seen2: seq<History>)
  {
    && |cands2| == |cands| == |seen| == |seen2|
    && forall i :: 0 <= i < |seen| ==> Within(seen[i], seen2[i]) && cands2[i].rangeFloor == cands[i].rangeFloor
  }

  ghost predicate Sees(seen: History, points: History)
  {
    forall n :: n in points ==> n in seen
  }

  lemma GrewTrans(a: seq<Candidate>, sa: seq<History>, b: seq<Candidate>, sb: seq<History>, c: seq<Candidate>,
                  sc: seq<History>)
    requires Grew(a, sa, b, sb) && Grew(b, sb, c, sc)
    ensures Grew(a, sa, c, sc)
  {
    forall i | 0 <= i < |sa| ensures Within(sa[i], sc[i]) { assert Within(sa[i], sb[i]) && Within(sb[i], sc[i]); }
  }

  /** Offer one source's versions of key `i`. */
  lemma OfferOne(cands: seq<Candidate>, seen: seq<History>, truth: seq<History>, i: nat, points: History, s: nat,
                 now: int)
    requires Steady(cands, seen, truth, s, now) && i < |cands| && Within(points, truth[i])
    ensures var c2, s2 := cands[i := Considered(cands[i], points, s, now)], seen[i := seen[i] + points];
            Steady(c2, s2, truth, s, now) && Grew(cands, seen, c2, s2)
  {
    ConsideredShows(cands[i], seen[i], points, s, now);
  }

  lemma SkipOne(cands: seq<Candidate>, seen: seq<History>, truth: seq<History>, i: nat, p: Probe, s: nat, now: int)
    requires Steady(cands, seen, truth, s, now) && i < |cands| && Fits(truth[i], p) && ResolvedAbove(cands[i], p.maxSeq)
    ensures var s2 := seen[i := seen[i] + p.points];
            Steady(cands, s2, truth, s, now) && Grew(cands, seen, cands, s2)
  {
    SkippedShows(cands[i], seen[i], p.points, p.maxSeq, s, now);
  }

  lemma {:induction false} InsertIn(ps: seq<Pair>, p: Pair, q: Pair)
    ensures q in InsertPair(ps, p) <==> q == p || q in ps
  {
    if ps != [] && !PairBefore(p, ps[0]) { InsertIn(ps[1..], p, q); }
  }

  lemma {:induction false} SortIn(ps: seq<Pair>, q: Pair)
    ensures q in SortPairs(ps) <==> q in ps
  {
    if ps == [] {
    } else {
      SortIn(ps[1..], q);
      InsertIn(SortPairs(ps[1..]), ps[0], q);
    }
  }

  function TablePoints(t: Table, k: Key): History
  {
    PointsOf(t.points, k)
  }

  /** Split a table's keys: the resolved ones are done, the others wait in block order. */
  method PlanLookups(cands: seq<Candidate>, keys: seq<Key>, table: Table, idxs: seq<nat>, block: (Table, Key) -> nat,
                     s: nat, now: int, ghost seen: seq<History>, ghost truth: seq<History>)
    returns (scratch: seq<Pair>, ghost seen2: seq<History>)
    requires Steady(cands, seen, truth, s, now) && |keys| == |cands| && forall i :: i in idxs ==> i < |cands|
    requires forall i :: i in idxs ==> Fits(truth[i], ProbeOf(OnDisk(table), keys[i]))
    ensures Steady(cands, seen2, truth, s, now) && Grew(cands, seen, cands, seen2)
    ensures forall q :: q in scratch ==> q.idx in idxs
    ensures forall i :: i in idxs ==>
              Sees(seen2[i], TablePoints(table, keys[i])) || Pair(block(table, keys[i]), i) in scratch
  {
    scratch, seen2 := [], seen;
    var n := 0;
    while n < |idxs|
      invariant 0 <= n <= |idxs| && Steady(cands, seen2, truth, s, now) && Grew(cands, seen, cands, seen2)
      invariant forall q :: q in scratch ==> q.idx in idxs
      invariant forall i :: i in idxs[..n] ==>
                  && i < |cands|
                  && (Sees(seen2[i], TablePoints(table, keys[i])) || Pair(block(table, keys[i]), i) in scratch)
    {
      var i := idxs[n];
      assert i in idxs && idxs[..n + 1] == idxs[..n] + [i];
      if ResolvedAbove(cands[i], table.maxSeq) {
        SkipOne(cands, seen2, truth, i, ProbeOf(OnDisk(table), keys[i]), s, now);
        ghost var next := seen2[i := seen2[i] + TablePoints(table, keys[i])];
        GrewTrans(cands, seen, cands, seen2, cands, next);
        seen2 := next;
      } else {
        scratch := scratch + [Pair(block(table, keys[i]), i)];
      }
      n := n + 1;
    }
    assert idxs[..|idxs|] == idxs;
  }

  /** Run the planned lookups, one block at a time. */
  method RunLookups(cands: seq<Candidate>, keys: seq<Key>, table: Table, scratch: seq<Pair>,
                    s: nat, now: int, ghost seen: seq<History>, ghost truth: seq<History>)
    returns (r: seq<Candidate>, ghost seen2: seq<History>)
    requires Steady(cands, seen, truth, s, now) && |keys| == |cands| && forall q :: q in scratch ==> q.idx < |cands|
    requires forall q :: q in scratch ==> Fits(truth[q.idx], ProbeOf(OnDisk(table), keys[q.idx]))
    ensures Steady(r, seen2, truth, s, now) && Grew(cands, seen, r, seen2)
    ensures forall q :: q in scratch ==> Sees(seen2[q.idx], TablePoints(table, keys[q.idx]))
  {
    hide Dead, Shows, Considered;
    r, seen2 := cands, seen;
    var pos := 0;
    while pos < |scratch|
      invariant 0 <= pos <= |scratch| && Steady(r, seen2, truth, s, now) && Grew(cands, seen, r, seen2)
      invariant forall q :: q in scratch[..pos] ==>
                  q.idx < |cands| && Sees(seen2[q.idx], TablePoints(table, keys[q.idx]))
    {
      var at := scratch[pos].pos;
      ghost var from := pos;
      while pos < |scratch| && scratch[pos].pos == at
        invariant from <= pos <= |scratch| && (pos == from ==> scratch[pos].pos == at)
        invariant Steady(r, seen2, truth, s, now) && Grew(cands, seen, r, seen2)
        invariant forall q :: q in scratch[..pos] ==>
                    q.idx < |cands| && Sees(seen2[q.idx], TablePoints(table, keys[q.idx]))
        decreases |scratch| - pos
      {
        var i := scratch[pos].idx;
        assert scratch[pos] in scratch && scratch[..pos + 1] == scratch[..pos] + [scratch[pos]];
        assert Fits(truth[i], ProbeOf(OnDisk(table), keys[i]));
        OfferOne(r, seen2, truth, i, TablePoints(table, keys[i]), s, now);
        ghost var c2, s2 := r[i := Considered(r[i], TablePoints(table, keys[i]), s, now)],
            seen2[i := seen2[i] + TablePoints(table, keys[i])];
        GrewTrans(cands, seen, r, seen2, c2, s2);
        r := r[i := Considered(r[i], TablePoints(table, keys[i]), s, now)];
        seen2 := s2;
        pos := pos + 1;
      }
    }
    assert scratch[..|scratch|] == scratch;
  }

  /** `resolve_table_batch`: every key of one table, whatever order its blocks come in. */
  method ResolveTableBatch(cands: seq<Candidate>, keys: seq<Key>, table: Table, idxs: seq<nat>,
                           block: (Table, Key) -> nat,
                           s: nat, now: int, ghost seen: seq<History>, ghost truth: seq<History>)
    returns (r: seq<Candidate>, ghost seen2: seq<History>)
    requires Steady(cands, seen, truth, s, now) && |keys| == |cands| && forall i :: i in idxs ==> i < |cands|
    requires forall i :: i in idxs ==> Fits(truth[i], ProbeOf(OnDisk(table), keys[i]))
    ensures Steady(r, seen2, truth, s, now) && Grew(cands, seen, r, seen2)
    ensures forall i :: i in idxs ==> Sees(seen2[i], TablePoints(table, keys[i]))
  {
    var scratch;
    ghost var planned;
    scratch, planned := PlanLookups(cands, keys, table, idxs, block, s, now, seen, truth);
    forall q ensures q in SortPairs(scratch) <==> q in scratch { SortIn(scratch, q); }
    r, seen2 := RunLookups(cands, keys, table, SortPairs(scratch), s, now, planned, truth);
    GrewTrans(cands, seen, cands, planned, r, seen2);
    forall i | i in idxs ensures Sees(seen2[i], TablePoints(table, keys[i])) {
      if Pair(block(table, keys[i]), i) !in scratch {
        assert Sees(planned[i], TablePoints(table, keys[i])) && Within(planned[i], seen2[i]);
      }
    }
  }

  lemma {:induction false} SkipAll(cands: seq<Candidate>, keys: seq<Key>, table: Table, idxs: seq<nat>, s: nat,
                                   now: int,
                                   seen: seq<History>, truth: seq<History>) returns (seen2: seq<History>)
    requires Steady(cands, seen, truth, s, now) && |keys| == |cands|
    requires forall i :: i in idxs ==> i < |cands| && ResolvedAbove(cands[i], table.maxSeq)
    requires forall i :: i in idxs ==> Fits(truth[i], ProbeOf(OnDisk(table), keys[i]))
    ensures Steady(cands, seen2, truth, s, now) && Grew(cands, seen, cands, seen2)
    ensures forall i :: i in idxs ==> Sees(seen2[i], TablePoints(table, keys[i]))
  {
    if idxs == [] {
      seen2 := seen;
    } else {
      var i := idxs[0];
      assert i in idxs;
      SkipOne(cands, seen, truth, i, ProbeOf(OnDisk(table), keys[i]), s, now);
      var next := seen[i := seen[i] + TablePoints(table, keys[i])];
      assert forall j :: j in idxs[1..] ==> j in idxs;
      seen2 := SkipAll(cands, keys, table, idxs[1..], s, now, next, truth);
      GrewTrans(cands, seen, cands, next, cands, seen2);
      assert Within(next[i], seen2[i]);
    }
  }

  /** One table: skipped unread when it can beat no candidate it was selected for. */
  method VisitTable(cands: seq<Candidate>, keys: seq<Key>, g: Group, block: (Table, Key) -> nat, s: nat, now: int,
                    ghost seen: seq<History>, ghost truth: seq<History>)
    returns (r: seq<Candidate>, ghost seen2: seq<History>)
    requires Steady(cands, seen, truth, s, now) && |keys| == |cands| && forall i :: i in g.idxs ==> i < |cands|
    requires forall i :: i in g.idxs ==> Fits(truth[i], ProbeOf(OnDisk(g.table), keys[i]))
    ensures Steady(r, seen2, truth, s, now) && Grew(cands, seen, r, seen2)
    ensures forall i :: i in g.idxs ==> Sees(seen2[i], TablePoints(g.table, keys[i]))
  {
    if forall i :: i in g.idxs ==> ResolvedAbove(cands[i], g.table.maxSeq) {
      seen2 := SkipAll(cands, keys, g.table, g.idxs, s, now, seen, truth);
      r := cands;
    } else {
      r, seen2 := ResolveTableBatch(cands, keys, g.table, g.idxs, block, s, now, seen, truth);
    }
  }

  /** Every candidate has seen its key in every table of its replayed plan. */
  ghost predicate SeesTables(seen: seq<History>, keys: seq<Key>, groups: seq<Group>)
    requires |seen| == |keys|
  {
    forall g, i :: g in groups && i in g.idxs && i < |keys| ==> Sees(seen[i], TablePoints(g.table, keys[i]))
  }

  lemma SeesTablesGrows(cands: seq<Candidate>, seen: seq<History>, c2: seq<Candidate>, s2: seq<History>, keys: seq<Key>,
                        groups: seq<Group>)
    requires |seen| == |keys| && SeesTables(seen, keys, groups) && Grew(cands, seen, c2, s2)
    ensures SeesTables(s2, keys, groups)
  {
    forall g, i | g in groups && i in g.idxs && i < |keys| ensures Sees(s2[i], TablePoints(g.table, keys[i])) {
      assert Sees(seen[i], TablePoints(g.table, keys[i])) && Within(seen[i], s2[i]);
    }
  }

  /** Visit every candidate table in source order. */
  method VisitTables(cands: seq<Candidate>, keys: seq<Key>, groups: seq<Group>, block: (Table, Key) -> nat, s: nat,
                     now: int,
                     ghost seen: seq<History>, ghost truth: seq<History>)
    returns (r: seq<Candidate>, ghost seen2: seq<History>)
    requires Steady(cands, seen, truth, s, now) && |keys| == |cands| && Indexed(groups, |keys|)
    requires forall g, i :: g in groups && i in g.idxs && i < |cands| ==>
               Fits(truth[i], ProbeOf(OnDisk(g.table), keys[i]))
    ensures Steady(r, seen2, truth, s, now) && Grew(cands, seen, r, seen2) && SeesTables(seen2, keys, groups)
  {
    r, seen2 := cands, seen;
    var n := 0;
    while n < |groups|
      invariant 0 <= n <= |groups| && Steady(r, seen2, truth, s, now) && Grew(cands, seen, r, seen2)
      invariant SeesTables(seen2, keys, groups[..n])
    {
      var g := groups[n];
      assert g in groups && groups[..n + 1] == groups[..n] + [g];
      ghost var r0, seen0 := r, seen2;
      r, seen2 := VisitTable(r, keys, g, block, s, now, seen2, truth);
      SeesTablesGrows(r0, seen0, r, seen2, keys, groups[..n]);
      GrewTrans(cands, seen, r0, seen0, r, seen2);
      n := n + 1;
    }
    assert groups[..|groups|] == groups;
  }
}
