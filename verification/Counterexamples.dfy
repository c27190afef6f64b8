/** Concrete inputs on which a promise fails, beside the exact conditions proved elsewhere. */
module Counterexamples {
  import opened Semantics
  import opened Rewrite
  import opened KeyTheorem
  import opened Fragments
  import opened Tables
  import opened OutputBuilder
  import opened MergeInputs
  import opened RunSpan
  import opened PlanSpans
  import opened Install
  import opened JobTheorem
  import opened Levels
  import opened Sources
  import opened Engine
  import opened Lookup
  import opened Rollback
  import opened Misread

  const K: Key := 5.0

  /** A put that expired above the oldest snapshot, over an older put. */
  const EXPIRED := [Version(K, 10, Put([1], 5)), Version(K, 3, Put([2], 0))]

  /** A bottom job drops the expired put, and the older value comes back: the reason the
      clean condition of a job is needed. */
  lemma ExpiredPutUncovers(op: MergeOp)
    ensures var job := Job(true, 5, 7, op, false, (_: Key) => None);
            && Run(job, START, EXPIRED) == Some([EXPIRED[1]]) && !Clean(job, K, EXPIRED, {})
            && Read(Reader(op, K, 7), PointsOf(EXPIRED, K), 10) == NotFound
            && Read(Reader(op, K, 7), PointsOf([EXPIRED[1]], K), 10) == Found([2])
  {
    var job, v0, v1 := Job(true, 5, 7, op, false, (_: Key) => None), EXPIRED[0], EXPIRED[1];
    ExpiredRun(job, v0, v1);
    var h, after := PointsOf(EXPIRED, K), PointsOf([v1], K);
    TwoPoints(v0, v1);
    WalkSkip(after, 3, 10);
    assert Walk(after, 3) == Chain([], Live([2], 0));
    assert Walk(h, 10) == Chain([], Live([1], 5));
    var whole := Overlay(h, {});
    assert whole == h;
    NewestSkip(whole, 3, 9);
    assert Exposes(job, K, EXPIRED, {}, 10);
  }

  lemma TwoPoints(v0: Version, v1: Version)
    requires v0.key == v1.key && v0.seqno != v1.seqno
    ensures var h, after := PointsOf([v0, v1], v0.key), PointsOf([v1], v0.key);
            && after.Keys == {v1.seqno} && after[v1.seqno] == v1.entry
            && h.Keys == {v0.seqno, v1.seqno} && h[v0.seqno] == v0.entry && h[v1.seqno] == v1.entry
  {
    assert [v0, v1][1..] == [v1] && [v1][1..] == [];
  }

  /** The job keeps the older put and drops the newer, expired one. */
  lemma {:induction false} ExpiredRun(job: Job, v0: Version, v1: Version)
    requires job.bottom && job.oldest == 5 && job.now == 7 && !job.folding && job.mask(K) == None
    requires v0 == Version(K, 10, Put([1], 5)) && v1 == Version(K, 3, Put([2], 0))
    ensures Run(job, START, [v0, v1]) == Some([v1])
  {
    var vs := [v0, v1];
    assert vs[1..] == [v1] && [v1][1..] == [];
    var s0 := Step(job, START, v0);
    assert s0.Stepped? && s0.out == [];
    var s1 := Step(job, s0.next, v1);
    assert s1.Stepped? && s1.out == [v1];
    assert Run(job, s1.next, []) == Some([]);
    assert Run(job, s0.next, [v1]) == Some([v1] + []);
    assert [v1] + [] == [v1] && [] + [v1] == [v1];
  }

  /** A table whose only fragment starts below its only point. */
  const EARLY := Table(1, 1, [Version(K, 3, Put([2], 0))], [Fragment(1.0, 9.0, [7])], K, K, 3, None)

  /** It is what a builder returns for that point and that fragment, and no lookup finds the
      fragment below the point. */
  lemma {:induction false} EarlyFragment()
    ensures Built([EARLY], None, EARLY.points, EARLY.frags, None)
    ensures LevelOk([EARLY]) && CoversOf(EARLY.frags, 1.0) == {7} && Hit([EARLY], 1.0) == None
    ensures Gap([EARLY], 1.0) == None
  {
    CoversAt(EARLY.frags, 0, 1.0);
    assert Elements([7]) == {7};
    BuiltAlone(EARLY, None);
  }

  /** One file, from a builder whose span ends at `upper`. */
  lemma {:induction false} BuiltAlone(t: Table, upper: Option<Key>)
    requires Tidy(t.frags) && Bounded(t.frags, None, upper) && t.partition == None
    requires if t.points != [] then t.minKey == t.points[0].key && t.maxKey == t.points[|t.points| - 1].key
               && t.maxSeq == MaxSeqOf(t.points)
             else t.frags != [] && t.minKey == RangeMin(t) && t.maxKey == RangeMax(t)
    ensures Built([t], None, t.points, t.frags, upper)
  {
    hide Clipped, Tidy, Bounded, MaxSeqOf;
    ClipAll(t.frags, upper);
    AloneClipped(t, t.frags, upper);
    assert AllPoints([t]) == t.points by { assert [t][1..] == [] && t.points + [] == t.points; }
    if t.points != [] { assert PointFile(t, None); }
  }

  lemma {:induction false} AloneClipped(t: Table, frags: seq<Fragment>, upper: Option<Key>)
    requires t.frags == ClipFragments(frags, None, upper)
    ensures Clipped([t], frags, upper)
  {
    assert [t][..0] == [];
  }

  /** A table of fragments only, ending where the next table's first point is. */
  const TOUCHING := [Table(1, 1, [], [Fragment(1.0, K, [7])], 1.0, K, 0, None),
                     Table(2, 1, [Version(K, 3, Put([2], 0))], [], K, K, 3, None)]

  lemma {:induction false} TouchingLevel(a: Table, b: Table, k: Key)
    requires a.points == [] && |a.frags| == 1 && Tidy(a.frags) && a.minKey == a.frags[0].start
    requires a.maxKey == a.frags[0].end == k
    requires b.frags == [] && |b.points| == 1 && b.points[0].key == b.minKey == b.maxKey == k
    requires b.points[0].seqno <= b.maxSeq
    ensures LevelOk([a, b]) && PointsOf(b.points, k) != map[] && Hit([a, b], k) == Some(0)
  {
    PointsMember(b.points, k, 0);
    assert a.minKey < a.maxKey;
  }

  /** They are what the builders of two spans cut at the point return, and a lookup of the
      point lands on the first. */
  lemma {:induction false} TouchingTables()
    ensures Built([TOUCHING[0]], None, [], TOUCHING[0].frags, Some(K))
    ensures Built([TOUCHING[1]], None, TOUCHING[1].points, [], None)
    ensures LevelOk(TOUCHING) && PointsOf(TOUCHING[1].points, K) != map[] && Hit(TOUCHING, K) == Some(0)
  {
    hide Built, LevelOk, Hit, PointsOf;
    TouchingLevel(TOUCHING[0], TOUCHING[1], K);
    BuiltAlone(TOUCHING[0], Some(K));
    BuiltAlone(TOUCHING[1], None);
  }

  // ---- rollback -----------------------------------------------------------------------------------

  /** A job over the two tables of L0, newest `a`, and the one file it wrote. */
  ghost predicate TwoInputs(levels: Tree, p: Picked, a: Table, b: Table, c: Table, v: Version, w: Version)
  {
    && levels == [[a, b]] && p == Picked(Mover(p.job.op, false), 0, 1, [b, a], [])
    && One(a, v, []) && One(b, w, []) && v.key < w.key && a.level == 0 && b.level == 0
    && a.id != b.id && c.id != a.id && c.id != b.id
    && c.points == [v, w] && c.frags == [] && c.minKey == v.key && c.maxKey == w.key
    && v.seqno <= c.maxSeq && w.seqno <= c.maxSeq
  }

  lemma {:induction false} TwoFiles(a: Table, b: Table, v: Version, w: Version, k: Key)
    requires One(a, v, []) && One(b, w, [])
    ensures AllPoints([b, a]) == [w, v] && AllCovers([b, a], k) == {}
  {
    hide One;
    OneFile(a, v, [], k);
    OneFile(b, w, [], k);
    AllPointsConcat([b], [a]);
    AllCoversConcat([b], [a], k);
    assert [b] + [a] == [b, a] && [w] + [v] == [w, v];
  }

  lemma {:induction false} TwoMerged(v: Version, w: Version)
    requires v.key < w.key
    ensures Merged([w, v]) == [v, w]
  {
    OneMerged(v);
    assert [w, v][1..] == [v] && InsertVersion([v], w) == [v] + InsertVersion([v][1..], w) && [v][1..] == [];
  }

  lemma {:induction false} TwoRun(job: Job, v: Version, w: Version)
    requires v.seqno > job.oldest && w.seqno > job.oldest && job.mask(v.key) == None && job.mask(w.key) == None
    requires !job.bottom && !job.folding && v.entry.Put? && w.entry.Put?
    ensures Run(job, START, [v, w]) == Some([v, w])
  {
    var s0 := Step(job, START, v);
    assert s0.Stepped? && s0.out == [v] && s0.next.pending == None by { assert [] + [v] == [v]; }
    var s1 := Step(job, s0.next, w);
    assert s1.Stepped? && s1.out == [w] && s1.next.pending == None by { assert [] + [w] == [w]; }
    assert [v, w][1..] == [w] && [w][1..] == [];
    assert Run(job, s1.next, []) == Some([]) && Run(job, s0.next, [w]) == Some([w] + []);
    assert [w] + [] == [w] && [v] + [w] == [v, w];
  }

  lemma TwoJob(job: Job, a: Table, b: Table, c: Table, v: Version, w: Version)
    requires One(a, v, []) && One(b, w, []) && v.key < w.key && job == Mover(job.op, false) && c.points == [v, w]
    requires c.frags == []
    ensures FrozenOver(job, [b, a]) && JobResult(job, [b, a], [c])
  {
    hide Merged, Run, AllPoints, AllCovers;
    OneOk(a, v, []);
    OneOk(b, w, []);
    TwoMerged(v, w);
    TwoRun(job, v, w);
    TwoFiles(a, b, v, w, 0.0);
    NoFrags(c, 0.0);
    assert Run(job, START, Merged(AllPoints([b, a]))) == Some(AllPoints([c]));
    forall k: Key
      ensures AllCovers([c], k) == KeptCovers(job, k, AllCovers([b, a], k))
      ensures NewestAtMost(job.mask(k), AllCovers([b, a], k), 0)
    {
      TwoFiles(a, b, v, w, k);
      NoFrags(c, k);
      assert KeptCovers(job, k, {}) == {};
    }
  }

  lemma {:induction false} NoFrags(c: Table, k: Key)
    requires c.frags == []
    ensures AllPoints([c]) == c.points && AllCovers([c], k) == {}
  {
    assert [c][1..] == [] && c.points + [] == c.points;
  }

  lemma TwoLevel(c: Table, v: Version, w: Version)
    requires c.points == [v, w] && c.frags == [] && c.minKey == v.key < w.key == c.maxKey && v.seqno <= c.maxSeq
    requires w.seqno <= c.maxSeq
    ensures LevelOk([c])
  {
    assert Sorted(c.points) && Tidy(c.frags);
  }

  lemma TwoResult(levels: Tree, p: Picked, a: Table, b: Table, c: Table, v: Version, w: Version)
    requires TwoInputs(levels, p, a, b, c, v, w)
    ensures FrozenOver(p.job, Inputs(p)) && JobResult(p.job, Inputs(p), [c]) && LevelOk([c])
  {
    hide FrozenOver, JobResult, One;
    TwoJob(p.job, a, b, c, v, w);
    assert Inputs(p) == [b, a];
    TwoLevel(c, v, w);
  }

  lemma {:induction false} TwoWindow(a: Table, b: Table)
    ensures OldestWindow([a, b], 2) == [b, a]
  {
    assert [a, b][0..] == [a, b] && [a, b][1..] == [b] && [b][1..] == [];
    assert Reversed([b]) == [] + [b] && [] + [b] == [b] && [b] + [a] == [b, a];
  }

  lemma {:induction false} OneSays(t: Table, v: Version, k: Key)
    requires One(t, v, [])
    ensures v.key != k ==> Says(OnDisk(t), k) == map[]
  {
    OnePoint(v, k);
  }

  lemma OnesApart(a: Table, b: Table, v: Version, w: Version)
    requires One(a, v, []) && One(b, w, []) && v.key != w.key
    ensures NewerSource(OnDisk(a), OnDisk(b))
  {
    hide Says, One;
    forall k: Key ensures Says(OnDisk(a), k) == map[] || Says(OnDisk(b), k) == map[] {
      OneSays(a, v, k);
      OneSays(b, w, k);
    }
  }

  lemma TwoTree(levels: Tree, a: Table, b: Table, c: Table, v: Version, w: Version)
    requires levels == [[a, b]] && One(a, v, []) && One(b, w, []) && v.key != w.key && a.id != b.id && c.id != a.id
    requires c.id != b.id
    ensures TablesOk(levels) && TreeOrdered(levels) && FreshlyNamed(levels, [c])
  {
    hide One, Stamped, Distinct, LevelOk, NewerSource;
    OneOk(a, v, []);
    OneOk(b, w, []);
    OnesApart(a, b, v, w);
    forall t ensures InTree(levels, t) <==> t == a || t == b { assert t in levels[0] <==> t == a || t == b; }
  }

  lemma TwoPlaced(levels: Tree, p: Picked, a: Table, b: Table)
    requires levels == [[a, b]] && p.level == 0 && p.target == 1 && p.source == [b, a] && p.gathered == []
    requires !p.job.bottom
    ensures InPlace(levels, p) && Shaped(levels, p)
  {
    hide NewerSource, Beside, OldestWindow, JobMin, JobMax;
    TwoWindow(a, b);
    assert Inputs(p) == [b, a];
  }

  lemma {:induction false} TwoBack(a: Table, b: Table)
    ensures Reversed([a, b][0..]) == [b, a]
  {
    assert [a, b][0..] == [a, b] && [a, b][1..] == [b] && [b][1..] == [];
    assert Reversed([b]) == [] + [b] && [] + [b] == [b] && [b] + [a] == [b, a];
  }

  /** Every such job, rolled back, leaves L0 with the older table in front of the newer. */
  lemma RollbackReorders(levels: Tree, p: Picked, a: Table, b: Table, c: Table, v: Version, w: Version)
    requires TwoInputs(levels, p, a, b, c, v, w)
    ensures Undoable(levels, p, [c], []) && Shaped(levels, p)
    ensures LevelAt(Undone(levels, p, [c], []), 0) == [b, a] != levels[0]
  {
    hide One, Undone, Shaped, InPlace, TablesOk, TreeOrdered, FreshlyNamed, FrozenOver, JobResult, LevelOk,
        OldestWindow;
    TwoTree(levels, a, b, c, v, w);
    MoverFields(p.job.op, false);
    TwoPlaced(levels, p, a, b);
    TwoResult(levels, p, a, b, c, v, w);
    TwoBack(a, b);
    assert Inputs(p) == [b, a] && ([] + levels[0][..0]) + [b, a] == [b, a];
    UndoneWindow(levels, p, [c], [], 0);
  }

  /** There is one. */
  lemma RollbackInstance(op: MergeOp)
    ensures var v, w := Version(1.0, 2, Put([1], 0)), Version(3.0, 1, Put([2], 0));
            var a, b := Of(1, 0, v, []), Of(2, 0, w, []);
            TwoInputs([[a, b]], Picked(Mover(op, false), 0, 1, [b, a], []), a, b,
                Table(3, 1, [v, w], [], 1.0, 3.0, 2, None), v, w)
  {
  }
}
