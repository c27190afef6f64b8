/**
 Splitting a job into key spans is invisible: the spans' streams concatenate to the
 stream of one unbounded run, and so do the versions written.
 */
module Spans {
  import opened Semantics
  import opened Rewrite
  import opened Preservation
  import opened KeyTheorem
  import opened Fragments
  import opened Tables
  import opened MergeInputs
  import opened OutputBuilder
  import opened RunSpan
  import opened Projection
  import opened JobTheorem

  function Join(a: Emitted, b: Emitted): Emitted
  {
    if a.None? || b.None? then None else Some(a.value + b.value)
  }

  /** Retention state of another key does not matter. */
  lemma {:induction false} RunForgets(job: Job, s: LoopState, vs: seq<Version>)
    requires s.pending == None
    requires forall i :: 0 <= i < |vs| ==> s.retained.lastKey != Some(vs[i].key)
    ensures Run(job, s, vs) == Run(job, START, vs)
    decreases |vs|
  {
    if vs == [] {
    } else {
      if Masked(job, vs[0]) {
        RunForgets(job, s, vs[1..]);
      } else {
        assert Step(job, s, vs[0]) == Step(job, START, vs[0]);
      }
    }
  }

  lemma StepCrosses(job: Job, s: LoopState, v: Version)
    requires s.pending.Some? ==> s.pending.value.key != v.key
    ensures var flushed, own := FlushPending(job, s.pending), Step(job, LoopState(s.retained, None), v);
            Step(job, s, v) ==
            if flushed.None? || own.Failed? then Failed else Stepped(flushed.value + own.out, own.next)
  {
    var flushed, own := FlushPending(job, s.pending), Step(job, LoopState(s.retained, None), v);
    if flushed.Some? && own.Stepped? {
      assert [] + own.out == own.out && flushed.value + [] == flushed.value;
    }
  }

  /** Crossing into new keys flushes what is pending and starts afresh. */
  lemma {:induction false} RunCrosses(job: Job, s: LoopState, vs: seq<Version>)
    requires forall i :: 0 <= i < |vs| ==> s.retained.lastKey != Some(vs[i].key)
    requires vs != [] && s.pending.Some? ==> s.pending.value.key != vs[0].key
    ensures Run(job, s, vs) == Join(FlushPending(job, s.pending), Run(job, START, vs))
  {
    var flushed := FlushPending(job, s.pending);
    if vs == [] {
      if flushed.Some? { assert flushed.value + [] == flushed.value; }
    } else {
      var bare := LoopState(s.retained, None);
      RunForgets(job, bare, vs);
      StepCrosses(job, s, vs[0]);
      JoinHead(job, s, bare, vs, flushed);
    }
  }

  lemma {:induction false} JoinHead(job: Job, s: LoopState, bare: LoopState, vs: seq<Version>, flushed: Emitted)
    requires vs != []
    requires Step(job, s, vs[0]) ==
             var own := Step(job, bare, vs[0]);
             if flushed.None? || own.Failed? then Failed else Stepped(flushed.value + own.out, own.next)
    ensures Run(job, s, vs) == Join(flushed, Run(job, bare, vs))
  {
    hide Step;
    var own := Step(job, bare, vs[0]);
    if flushed.Some? && own.Stepped? {
      var rest := Run(job, own.next, vs[1..]);
      if rest.Some? {
        assert flushed.value + own.out + rest.value == flushed.value + (own.out + rest.value);
      }
    }
  }

  /** The keys a run has looked at bound its state. */
  lemma {:induction false} RunToKeys(job: Job, done: seq<Version>, bound: Key)
    requires RunTo(job, done).Stepped? && forall i :: 0 <= i < |done| ==> done[i].key < bound
    ensures var s := RunTo(job, done).next;
            && StateOk(job, s)
            && (s.retained.lastKey.Some? ==> s.retained.lastKey.value < bound)
            && (s.pending.Some? ==> s.pending.value.key < bound)
    decreases |done|
  {
    if done == [] {
    } else {
      var init, v := done[..|done| - 1], done[|done| - 1];
      RunToKeys(job, init, bound);
      var s := RunTo(job, init).next;
      var p, q := StepWrites(job, s, v);
      StepSame(job, s, v, Step(job, s, v), Step(job, Project(s, v.key), v));
    }
  }

  lemma PrependJoin(head: seq<Version>, a: Emitted, b: Emitted)
    ensures Prepend(head, Join(a, b)) == Join(Prepend(head, a), b)
  {
    if a.Some? && b.Some? {
      assert head + (a.value + b.value) == (head + a.value) + b.value;
    }
  }

  /** Runs over disjoint key ranges concatenate. */
  lemma {:induction false} RunConcat(job: Job, a: seq<Version>, b: seq<Version>, cut: Key)
    requires forall i :: 0 <= i < |a| ==> a[i].key < cut
    requires forall i :: 0 <= i < |b| ==> cut <= b[i].key
    ensures Run(job, START, a + b) == Join(Run(job, START, a), Run(job, START, b))
  {
    RunResumes(job, a, b);
    RunResumes(job, a, []);
    assert a + [] == a;
    var now := RunTo(job, a);
    if now.Stepped? {
      RunToKeys(job, a, cut);
      RunCrosses(job, now.next, b);
      PrependJoin(now.out, FlushPending(job, now.next.pending), Run(job, START, b));
    }
  }

  lemma {:induction false} InSpanKeys(vs: seq<Version>, lower: Option<Key>, upper: Option<Key>, i: nat)
    requires i < |InSpan(vs, lower, upper)|
    ensures InBounds(InSpan(vs, lower, upper)[i].key, lower, upper)
  {
    if vs == [] {
    } else {
      var head := if InBounds(vs[0].key, lower, upper) then [vs[0]] else [];
      if i >= |head| { InSpanKeys(vs[1..], lower, upper, i - |head|); }
    }
  }

  /** Merged streams keep to the keys they were given. */
  lemma StreamKeys(inputs: seq<Table>, lower: Option<Key>, upper: Option<Key>, i: nat)
    requires i < |SpanStream(inputs, lower, upper)|
    ensures InBounds(SpanStream(inputs, lower, upper)[i].key, lower, upper)
  {
    var all := InSpan(AllPoints(inputs), lower, upper);
    var v := Merged(all)[i];
    PointsMember(Merged(all), v.key, i);
    MergedPoints(all, v.key);
    var j := PointsWitness(all, v.key, v.seqno);
    InSpanKeys(AllPoints(inputs), lower, upper, j);
  }

  /** One span's stream is its two halves' streams in a row. */
  lemma StreamSplits(inputs: seq<Table>, lower: Option<Key>, mid: Key, upper: Option<Key>)
    requires (lower.Some? ==> lower.value <= mid) && (upper.Some? ==> mid <= upper.value)
    ensures SpanStream(inputs, lower, upper) == SpanStream(inputs, lower, Some(mid)) +
              SpanStream(inputs, Some(mid), upper)
  {
    hide PointsOf, AllPoints, InSpan;
    var all := AllPoints(inputs);
    var a, b := SpanStream(inputs, lower, Some(mid)), SpanStream(inputs, Some(mid), upper);
    MergedSorted(InSpan(all, lower, Some(mid)));
    MergedSorted(InSpan(all, Some(mid), upper));
    MergedSorted(InSpan(all, lower, upper));
    forall i, j | 0 <= i < j < |a + b| ensures Precedes((a + b)[i], (a + b)[j]) {
      if i < |a| <= j {
        StreamKeys(inputs, lower, Some(mid), i);
        StreamKeys(inputs, Some(mid), upper, j - |a|);
      }
    }
    forall k: Key ensures PointsOf(a + b, k) == PointsOf(SpanStream(inputs, lower, upper), k) {
      PointsConcat(a, b, k);
      MergedPoints(InSpan(all, lower, Some(mid)), k);
      MergedPoints(InSpan(all, Some(mid), upper), k);
      MergedPoints(InSpan(all, lower, upper), k);
      InSpanPoints(all, lower, Some(mid), k);
      InSpanPoints(all, Some(mid), upper, k);
      InSpanPoints(all, lower, upper, k);
    }
    SortedUnique(SpanStream(inputs, lower, upper), a + b);
  }

  /** Running a span equals running its halves. */
  lemma {:induction false} SpanSplits(job: Job, inputs: seq<Table>, lower: Option<Key>, mid: Key, upper: Option<Key>)
    requires (lower.Some? ==> lower.value <= mid) && (upper.Some? ==> mid <= upper.value)
    ensures Run(job, START, SpanStream(inputs, lower, upper)) ==
            Join(Run(job, START, SpanStream(inputs, lower, Some(mid))),
                Run(job, START, SpanStream(inputs, Some(mid), upper)))
  {
    StreamSplits(inputs, lower, mid, upper);
    var a, b := SpanStream(inputs, lower, Some(mid)), SpanStream(inputs, Some(mid), upper);
    forall i | 0 <= i < |a| ensures a[i].key < mid { StreamKeys(inputs, lower, Some(mid), i); }
    forall i | 0 <= i < |b| ensures mid <= b[i].key { StreamKeys(inputs, Some(mid), upper, i); }
    RunConcat(job, a, b, mid);
  }

  lemma {:induction false} InSpanAll(vs: seq<Version>)
    ensures InSpan(vs, None, None) == vs
  {
    if vs == [] {
    } else {
      InSpanAll(vs[1..]);
    }
  }

  // ---- what one span returns ----------------------------------------------------------------

  /** Everything `t` says lies in `[lower, upper)`. */
  predicate Within(t: Table, lower: Option<Key>, upper: Option<Key>)
  {
    && (lower.Some? ==> lower.value <= SpanMin(t))
    && (upper.Some? ==> (t.points != [] ==> t.maxKey < upper.value) && (HasRanges(t) ==> RangeMax(t) <= upper.value))
  }

  lemma {:induction false} RunSorted(job: Job, stream: seq<Version>, out: seq<Version>)
    requires Sorted(stream) && Run(job, START, stream) == Some(out)
    ensures Sorted(out)
  {
    RunResumes(job, stream, []);
    assert stream + [] == stream;
    RunOrder(job, stream);
    var now := RunTo(job, stream);
    FlushFold(job, now.next);
    SortedFold(now.out, Suffix(now.next), FlushPending(job, now.next.pending).value);
  }

  /** The loop writes no key it did not read. */
  lemma {:induction false} RunKeys(job: Job, stream: seq<Version>, out: seq<Version>, i: nat)
    requires Run(job, START, stream) == Some(out) && i < |out|
    ensures exists j :: 0 <= j < |stream| && stream[j].key == out[i].key
  {
    var k := out[i].key;
    if forall j :: 0 <= j < |stream| ==> stream[j].key != k {
      RunAbsent(job, START, stream, k, out);
      PointsMember(out, k, i);
      OnlyPoints(out, k);
    }
  }

  /** A span writes sorted versions of its own keys. */
  lemma {:induction false} WrittenInSpan(job: Job, inputs: seq<Table>, lower: Option<Key>, upper: Option<Key>,
                                         written: seq<Version>)
    requires Run(job, START, SpanStream(inputs, lower, upper)) == Some(written)
    ensures Sorted(written)
    ensures forall i :: 0 <= i < |written| ==> InBounds(written[i].key, lower, upper)
  {
    var stream := SpanStream(inputs, lower, upper);
    MergedSorted(InSpan(AllPoints(inputs), lower, upper));
    RunSorted(job, stream, written);
    forall i | 0 <= i < |written| ensures InBounds(written[i].key, lower, upper) {
      RunKeys(job, stream, written, i);
      var j :| 0 <= j < |stream| && stream[j].key == written[i].key;
      StreamKeys(inputs, lower, upper, j);
    }
  }

  /** A table's versions are a stretch of all versions. */
  lemma {:induction false} PieceOf(ts: seq<Table>, i: nat) returns (at: nat)
    requires i < |ts|
    ensures at + |ts[i].points| <= |AllPoints(ts)|
    ensures AllPoints(ts)[at..at + |ts[i].points|] == ts[i].points
  {
    if i == 0 {
      at := 0;
    } else {
      var rest := PieceOf(ts[1..], i - 1);
      at := |ts[0].points| + rest;
      assert AllPoints(ts)[at..at + |ts[i].points|] == AllPoints(ts[1..])[rest..rest + |ts[i].points|];
    }
  }

  lemma {:induction false} PiecePoints(ts: seq<Table>, written: seq<Version>, lower: Option<Key>, upper: Option<Key>,
                                       i: nat)
    requires i < |ts| && AllPoints(ts) == written && Sorted(written)
    requires forall j :: 0 <= j < |written| ==> InBounds(written[j].key, lower, upper)
    ensures Sorted(ts[i].points)
    ensures forall j :: 0 <= j < |ts[i].points| ==> InBounds(ts[i].points[j].key, lower, upper)
    ensures written == [] ==> ts[i].points == []
  {
    var at := PieceOf(ts, i);
    assert forall j :: 0 <= j < |ts[i].points| ==> ts[i].points[j] == written[at + j];
  }

  lemma {:induction false} PieceFragments(ts: seq<Table>, frags: seq<Fragment>, lower: Option<Key>, upper: Option<Key>,
                                          i: nat)
    requires i < |ts| && Clipped(ts, frags, upper)
    requires Tidy(frags) && Bounded(frags, lower, upper)
    ensures Tidy(ts[i].frags) && Bounded(ts[i].frags, lower, upper)
  {
    var lo := if i == 0 then None else Some(ts[i].minKey);
    var hi := if i + 1 < |ts| then Some(ts[i + 1].minKey) else upper;
    ClippedAt(ts, frags, upper, i);
    ClipTidy(frags, lo, hi);
    ClipBounded(frags, lo, hi, lower, upper);
  }

  /** What the builder was given: sorted versions and tidy fragments of one span. */
  ghost predicate SpanOutput(ts: seq<Table>, p: Option<Partitioner>, written: seq<Version>, frags: seq<Fragment>,
                             lower: Option<Key>, upper: Option<Key>)
  {
    && Built(ts, p, written, frags, upper)
    && Tidy(frags) && Bounded(frags, lower, upper)
    && Sorted(written) && (forall j :: 0 <= j < |written| ==> InBounds(written[j].key, lower, upper))
  }

  /** A finished table is well formed, tight, and inside its span. */
  lemma BuiltTable(ts: seq<Table>, p: Option<Partitioner>, written: seq<Version>, frags: seq<Fragment>,
                   lower: Option<Key>, upper: Option<Key>, i: nat)
    requires SpanOutput(ts, p, written, frags, lower, upper) && i < |ts|
    ensures WellFormed(ts[i]) && Tight(ts[i]) && Within(ts[i], lower, upper)
  {
    hide AllPoints;
    PiecePoints(ts, written, lower, upper, i);
    PieceFragments(ts, frags, lower, upper, i);
  }

  lemma BuiltPair(ts: seq<Table>, p: Option<Partitioner>, written: seq<Version>, frags: seq<Fragment>,
                  upper: Option<Key>, i: nat, j: nat)
    requires Built(ts, p, written, frags, upper) && i < j < |ts|
    requires forall i :: 0 <= i < |ts| ==> ts[i].minKey <= ts[i].maxKey
    ensures SpanBelow(ts[i], ts[j])
  {
    OwnInterval(ts, frags, upper, j);
    ClippedAt(ts, frags, upper, i);
    ClipBounded(frags, if i == 0 then None else Some(ts[i].minKey), Some(ts[i + 1].minKey), None, None);
    if i + 1 < j { assert ts[i + 1].maxKey < ts[j].minKey; }
  }

  /** The tables of one span form a sorted level of their own. */
  lemma BuiltLevel(ts: seq<Table>, p: Option<Partitioner>, written: seq<Version>, frags: seq<Fragment>,
                   lower: Option<Key>, upper: Option<Key>)
    requires SpanOutput(ts, p, written, frags, lower, upper)
    ensures LevelOk(ts) && forall i :: 0 <= i < |ts| ==> Within(ts[i], lower, upper)
  {
    forall i | 0 <= i < |ts| ensures WellFormed(ts[i]) && Tight(ts[i]) && Within(ts[i], lower, upper) {
      BuiltTable(ts, p, written, frags, lower, upper, i);
    }
    forall i, j | 0 <= i < j < |ts| ensures SpanBelow(ts[i], ts[j]) {
      BuiltPair(ts, p, written, frags, upper, i, j);
    }
  }

  /** Per key, the tables of one span hold exactly the retained coverage. */
  lemma {:induction false} BuiltCovers(ts: seq<Table>, p: Option<Partitioner>, written: seq<Version>,
                                       frags: seq<Fragment>, lower: Option<Key>, upper: Option<Key>, k: Key)
    requires SpanOutput(ts, p, written, frags, lower, upper)
    ensures AllCovers(ts, k) == CoversOf(frags, k)
  {
    forall i | 0 <= i < |ts| ensures ts[i].minKey <= ts[i].maxKey && (upper.Some? ==> ts[i].minKey <= upper.value) {
      BuiltTable(ts, p, written, frags, lower, upper, i);
    }
    TilesSpan(ts, frags, upper, k);
    if !InBounds(k, lower, upper) { CoversOutside(frags, k); }
  }

  // ---- all spans of a job ---------------------------------------------------------------------

  /** `plan` cuts the key space at its keys; span `i` runs from cut `i - 1` up to cut `i`. */
  function SpanLower(plan: seq<Key>, i: nat): Option<Key>
    requires i <= |plan|
  {
    if i == 0 then None else Some(plan[i - 1])
  }

  function SpanUpper(plan: seq<Key>, i: nat): Option<Key>
    requires i <= |plan|
  {
    if i == |plan| then None else Some(plan[i])
  }

  /** What the spans below `upper` have produced together. */
  ghost predicate Partial(job: Job, inputs: seq<Table>, upper: Option<Key>, ts: seq<Table>)
  {
    && Run(job, START, SpanStream(inputs, None, upper)) == Some(AllPoints(ts))
    && LevelOk(ts)
    && (forall i :: 0 <= i < |ts| ==> Within(ts[i], None, upper))
    && forall k: Key :: AllCovers(ts, k) == if InBounds(k, None, upper) then KeptCovers(job, k, AllCovers(inputs, k))
        else {}
  }

  /** The next span extends what is there. */
  lemma {:induction false} PartialExtends(job: Job, inputs: seq<Table>, done: seq<Table>, cut: Key, upper: Option<Key>,
                       ts: seq<Table>, p: Option<Partitioner>, written: seq<Version>, frags: seq<Fragment>)
    requires Partial(job, inputs, Some(cut), done) && (upper.Some? ==> cut < upper.value)
    requires Run(job, START, SpanStream(inputs, Some(cut), upper)) == Some(written)
    requires RetainedFrom(job, inputs, Some(cut), upper, frags) && Built(ts, p, written, frags, upper)
    ensures Partial(job, inputs, upper, done + ts)
    ensures forall i :: 0 <= i < |ts| ==> Within(ts[i], Some(cut), upper)
  {
    WrittenInSpan(job, inputs, Some(cut), upper, written);
    BuiltLevel(ts, p, written, frags, Some(cut), upper);
    SpanSplits(job, inputs, None, cut, upper);
    AllPointsConcat(done, ts);
    forall k: Key
      ensures AllCovers(done + ts, k) == if InBounds(k, None, upper) then KeptCovers(job, k, AllCovers(inputs, k))
                else {}
    {
      ExtendCovers(job, inputs, done, cut, upper, ts, p, written, frags, k);
    }
    LevelsConcat(done, ts, cut, upper);
  }

  lemma {:induction false} ExtendCovers(job: Job, inputs: seq<Table>, done: seq<Table>, cut: Key, upper: Option<Key>,
                     ts: seq<Table>, p: Option<Partitioner>, written: seq<Version>, frags: seq<Fragment>, k: Key)
    requires AllCovers(done, k) == (if k < cut then KeptCovers(job, k, AllCovers(inputs, k)) else {})
    requires upper.Some? ==> cut < upper.value
    requires CoversOf(frags, k) ==
               (if InBounds(k, Some(cut), upper) then KeptCovers(job, k, AllCovers(inputs, k)) else {})
    requires SpanOutput(ts, p, written, frags, Some(cut), upper)
    ensures AllCovers(done + ts, k) == if InBounds(k, None, upper) then KeptCovers(job, k, AllCovers(inputs, k)) else {}
  {
    AllCoversConcat(done, ts, k);
    BuiltCovers(ts, p, written, frags, Some(cut), upper, k);
  }

  lemma LevelsConcat(a: seq<Table>, b: seq<Table>, cut: Key, upper: Option<Key>)
    requires LevelOk(a) && LevelOk(b) && (upper.Some? ==> cut < upper.value)
    requires forall i :: 0 <= i < |a| ==> Within(a[i], None, Some(cut))
    requires forall i :: 0 <= i < |b| ==> Within(b[i], Some(cut), upper)
    ensures LevelOk(a + b) && forall i :: 0 <= i < |a + b| ==> Within((a + b)[i], None, upper)
  {
    forall i, j | 0 <= i < j < |a + b| ensures SpanBelow((a + b)[i], (a + b)[j]) {
      if i < |a| <= j { assert Within(a[i], None, Some(cut)) && Within(b[j - |a|], Some(cut), upper); }
    }
  }

  /** The first span starts from nothing. */
  lemma {:induction false} PartialStarts(job: Job, inputs: seq<Table>, upper: Option<Key>,
                      ts: seq<Table>, p: Option<Partitioner>, written: seq<Version>, frags: seq<Fragment>)
    requires Run(job, START, SpanStream(inputs, None, upper)) == Some(written)
    requires RetainedFrom(job, inputs, None, upper, frags) && Built(ts, p, written, frags, upper)
    ensures Partial(job, inputs, upper, ts)
  {
    WrittenInSpan(job, inputs, None, upper, written);
    BuiltLevel(ts, p, written, frags, None, upper);
    forall k: Key
      ensures AllCovers(ts, k) == if InBounds(k, None, upper) then KeptCovers(job, k, AllCovers(inputs, k)) else {}
    {
      BuiltCovers(ts, p, written, frags, None, upper, k);
    }
  }

  /** A failing span fails the job. */
  lemma {:induction false} SpanFails(job: Job, inputs: seq<Table>, plan: seq<Key>, i: nat)
    requires Ascending(plan) && i <= |plan|
    requires Run(job, START, SpanStream(inputs, SpanLower(plan, i), SpanUpper(plan, i))) == None
    ensures Run(job, START, Merged(AllPoints(inputs))) == None
  {
    InSpanAll(AllPoints(inputs));
    if i > 0 { SpanSplits(job, inputs, None, plan[i - 1], SpanUpper(plan, i)); }
    if i < |plan| { SpanSplits(job, inputs, None, plan[i], None); }
  }

  lemma FirstCuts(c: Cuts, plan: seq<Key>, ts: seq<Table>)
    ensures CutByPlan(c, plan, []) && (forall first, level: nat :: Numbered([], first, level))
    ensures (CutWell(c, ts, None) ==> CutByPlan(c, plan, ts))
  {
  }

  /** No file of the job goes on past a cut, and none is cut but by the rules or the plan. */
  ghost predicate CutByPlan(c: Cuts, plan: seq<Key>, ts: seq<Table>)
  {
    && (forall i :: 0 <= i < |ts| ==> UnderLimit(c, ts[i].points))
    && (forall i :: 0 <= i < |ts| - 1 ==> Ends(c, ts[i], ts[i + 1].minKey) || CutBetween(plan, ts[i], ts[i + 1]))
  }

  /** A cut of the plan lies between the tables. */
  ghost predicate CutBetween(plan: seq<Key>, a: Table, b: Table)
  {
    exists x :: x in plan && a.maxKey <= x <= b.minKey
  }

  lemma CutsJoin(c: Cuts, plan: seq<Key>, done: seq<Table>, ts: seq<Table>, upper: Option<Key>, i: nat)
    requires CutByPlan(c, plan, done) && CutWell(c, ts, None) && i < |plan| && LevelOk(done)
    requires forall j :: 0 <= j < |done| ==> Within(done[j], None, Some(plan[i]))
    requires forall j :: 0 <= j < |ts| ==> Within(ts[j], Some(plan[i]), upper)
    ensures CutByPlan(c, plan, done + ts)
  {
    hide Ends, UnderLimit;
    var all := done + ts;
    assert done != [] && ts != [] ==> CutBetween(plan, done[|done| - 1], ts[0]) by {
      if done != [] && ts != [] {
        assert Within(done[|done| - 1], None, Some(plan[i])) && Within(ts[0], Some(plan[i]), upper);
        assert plan[i] in plan && done[|done| - 1].maxKey <= plan[i] <= ts[0].minKey;
      }
    }
    forall j | 0 <= j < |all| - 1 ensures Ends(c, all[j], all[j + 1].minKey) || CutBetween(plan, all[j], all[j + 1]) {
      if j >= |done| { assert Ends(c, ts[j - |done|], ts[j - |done| + 1].minKey); }
    }
  }

  /** What the first `i` spans have left. */
  ghost predicate Progress(job: Job, inputs: seq<Table>, plan: seq<Key>, i: nat, c: Cuts, nextId: nat, target: nat,
                           done: seq<Table>)
  {
    && i <= |plan| + 1 && (i == 0 ==> done == []) && Numbered(done, nextId, target) && CutByPlan(c, plan, done)
    && (0 < i ==> Partial(job, inputs, SpanUpper(plan, i - 1), done))
  }

  /** One more span of the plan. */
  lemma {:induction false} SpanJoins(job: Job, inputs: seq<Table>, plan: seq<Key>, i: nat, c: Cuts, nextId: nat,
                                     target: nat, done: seq<Table>, ts: seq<Table>, p: Option<Partitioner>,
                                     written: seq<Version>, frags: seq<Fragment>)
    requires Ascending(plan) && i <= |plan| && Progress(job, inputs, plan, i, c, nextId, target, done)
    requires Run(job, START, SpanStream(inputs, SpanLower(plan, i), SpanUpper(plan, i))) == Some(written)
    requires RetainedFrom(job, inputs, SpanLower(plan, i), SpanUpper(plan, i), frags)
    requires Built(ts, p, written, frags, SpanUpper(plan, i)) && CutWell(c, ts, None)
    requires Numbered(ts, nextId + |done|, target)
    ensures Progress(job, inputs, plan, i + 1, c, nextId, target, done + ts)
  {
    hide Run, Built, RetainedFrom, WellFormed, CutByPlan, CutWell, Within, Numbered, SpanStream, KeptCovers, AllCovers;
    if i == 0 {
      PartialStarts(job, inputs, SpanUpper(plan, 0), ts, p, written, frags);
      assert done + ts == ts;
      FirstCuts(c, plan, ts);
    } else {
      PartialExtends(job, inputs, done, plan[i - 1], SpanUpper(plan, i), ts, p, written, frags);
      CutsJoin(c, plan, done, ts, SpanUpper(plan, i), i - 1);
    }
    NumberedConcat(done, ts, nextId, target);
  }

  /** `run_spans`: the tables of every span, in span order. */
  method RunSpans(job: Job, inputs: seq<Table>, plan: seq<Key>,
                  target: nat, targetFileSize: nat, size: Version -> nat, partitioner: Option<Partitioner>,
                  nextId: nat)
    returns (tables: Option<seq<Table>>)
    requires FrozenOver(job, inputs) && Ascending(plan)
    ensures tables.None? <==> Run(job, START, Merged(AllPoints(inputs))) == None
    ensures tables.Some? ==>
              JobResult(job, inputs, tables.value) && LevelOk(tables.value) && Numbered(tables.value, nextId, target)
    ensures tables.Some? ==> CutByPlan(RulesOf(partitioner, targetFileSize, size), plan, tables.value)
  {
    hide Run, FrozenOver, Built, Progress, RetainedFrom, CutWell, Numbered, CutByPlan, LevelOk, Merged;
    ghost var rules := RulesOf(partitioner, targetFileSize, size);
    var done: seq<Table> := [];
    NothingYet(job, inputs, plan, rules, nextId, target);
    var i := 0;
    while i <= |plan|
      invariant 0 <= i <= |plan| + 1 && Progress(job, inputs, plan, i, rules, nextId, target, done)
    {
      var ts, written, frags := RunOneSpan(job, inputs, SpanLower(plan, i), SpanUpper(plan, i),
                                           target, targetFileSize, size, partitioner, nextId + |done|);
      if ts.None? {
        SpanFails(job, inputs, plan, i);
        return None;
      }
      SpanJoins(job, inputs, plan, i, rules, nextId, target, done, ts.value, partitioner, written, frags);
      done := done + ts.value;
      i := i + 1;
    }
    AllSpans(job, inputs, plan, rules, nextId, target, done);
    return Some(done);
  }

  lemma NothingYet(job: Job, inputs: seq<Table>, plan: seq<Key>, c: Cuts, nextId: nat, target: nat)
    ensures Progress(job, inputs, plan, 0, c, nextId, target, [])
  {
  }

  lemma {:induction false} AllSpans(job: Job, inputs: seq<Table>, plan: seq<Key>, c: Cuts, nextId: nat, target: nat,
                                    done: seq<Table>)
    requires Progress(job, inputs, plan, |plan| + 1, c, nextId, target, done)
    ensures JobResult(job, inputs, done) && LevelOk(done) && Numbered(done, nextId, target) && CutByPlan(c, plan, done)
  {
    hide Run, LevelOk, Numbered, CutByPlan;
    InSpanAll(AllPoints(inputs));
  }
}
