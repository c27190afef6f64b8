/**
 A whole run that ends in a wrong read: why a point read asks for searchable levels.

 A key is put and compacted down to level 2. A later batch puts another key and deletes a
 range over the first; its table is compacted into level 1, whose only file then has a
 fragment that starts before its first key. A read of the first key does not find it.
 */
module Misread {
  import opened Semantics
  import opened Rewrite
  import KeyTheorem
  import opened Fragments
  import opened Tables
  import opened MergeInputs
  import opened RunSpan
  import opened JobTheorem
  import opened PlanSpans
  import opened Levels
  import opened Sources
  import opened Engine
  import opened EngineFacts
  import opened PointRead
  import opened GetImpl
  import opened Lookup
  import opened DbRead

  /** A table of one put and some fragments, stamped as a flush or a job stamps it. */
  ghost predicate One(t: Table, v: Version, frags: seq<Fragment>)
  {
    && t.points == [v] && t.frags == frags && t.minKey == v.key && t.maxKey == v.key && t.maxSeq == v.seqno
    && Tidy(frags) && v.entry.Put? && v.entry.ttl == 0 && v.seqno > 0
    && forall k: Key :: (forall c :: c in CoversOf(frags, k) ==> c > 0 && c != v.seqno)
  }

  lemma {:induction false} OnePoint(v: Version, k: Key)
    ensures PointsOf([v], k) == if v.key == k then map[v.seqno := v.entry] else map[]
  {
    assert [v][1..] == [];
  }

  lemma OneOk(t: Table, v: Version, frags: seq<Fragment>)
    requires One(t, v, frags)
    ensures Stamped(t) && LevelOk([t]) && Distinct(OnDisk(t))
  {
    forall k: Key ensures PointsOf(t.points, k).Keys !! CoversOf(t.frags, k) { OnePoint(v, k); }
  }

  // ---- a job that only moves its table ------------------------------------------------------------

  function Mover(op: MergeOp, bottom: bool): Job
  {
    Job(bottom, 0, 0, op, false, (_: Key) => None)
  }

  lemma {:induction false} OneRun(job: Job, v: Version)
    requires v.seqno > job.oldest && job.mask(v.key) == None && v.entry.Put? && v.entry.ttl == 0
    ensures Run(job, START, [v]) == Some([v])
  {
    var step := Step(job, START, v);
    assert [v][1..] == [] && [] + [v] == [v];
    assert step.Stepped? && step.out == [v];
    assert Run(job, step.next, []) == Some([]);
    assert [v] + [] == [v];
  }

  lemma {:induction false} OneFile(t: Table, v: Version, frags: seq<Fragment>, k: Key)
    requires One(t, v, frags)
    ensures AllPoints([t]) == [v] && AllCovers([t], k) == CoversOf(frags, k)
  {
    assert [t][1..] == [] && [v] + [] == [v];
  }

  lemma {:induction false} OneMerged(v: Version)
    ensures Merged([v]) == [v]
  {
    assert [v][1..] == [];
  }

  lemma MoverResult(op: MergeOp, bottom: bool, t: Table, u: Table, v: Version, frags: seq<Fragment>)
    requires One(t, v, frags) && One(u, v, frags)
    ensures var job := Mover(op, bottom);
            FrozenOver(job, [t]) && JobResult(job, [t], [u]) && forall k: Key :: CleanKey(job, [t], k)
  {
    var job := Mover(op, bottom);
    OneOk(t, v, frags);
    OneFile(t, v, frags, 0.0);
    OneFile(u, v, frags, 0.0);
    OneMerged(v);
    OneRun(job, v);
    forall k: Key
      ensures AllCovers([u], k) == KeyTheorem.KeptCovers(job, k, AllCovers([t], k))
      ensures NewestAtMost(job.mask(k), AllCovers([t], k), 0)
    {
      OneFile(t, v, frags, k);
      OneFile(u, v, frags, k);
    }
    forall k: Key ensures CleanKey(job, [t], k) { UnexpiredClean(job, [t], k); }
  }

  // ---- segments of the run --------------------------------------------------------------------------

  lemma {:induction false} RunsConcat(db: Db, op: MergeOp, a: seq<Event>, b: seq<Event>)
    requires Runs(db, op, a) && Runs(After(db, a), op, b)
    ensures Runs(db, op, a + b) && After(db, a + b) == After(After(db, a), b)
    decreases |a|
  {
    hide Enabled, Next;
    if a == [] {
      assert a + b == b;
    } else {
      assert (a + b)[0] == a[0] && (a + b)[1..] == a[1..] + b;
      RunsConcat(Next(db, a[0]), op, a[1..], b);
    }
  }

  lemma CleanConcat(a: seq<Event>, b: seq<Event>)
    requires forall k: Key :: CleanRun(a, k) && CleanRun(b, k)
    ensures forall k: Key :: CleanRun(a + b, k)
  {
    forall k: Key ensures CleanRun(a + b, k) { assert CleanRun(a, k) && CleanRun(b, k); }
  }

  /** Commit a batch, seal it and flush it. */
  lemma Lands(db: Db, op: MergeOp, batch: Mem, t: Table) returns (es: seq<Event>)
    requires db.mem == EMPTY && db.imms == []
    requires MayCommit(db, batch) && Stamped(t) && Distinct(OnDisk(t))
    requires forall u :: InTree(db.levels, u) ==> u.id != t.id
    requires forall k: Key :: Says(OnDisk(t), k) == Says(InMemory(batch), k)
    ensures Runs(db, op, es) && forall k: Key :: CleanRun(es, k)
    ensures After(db, es) ==
              db.(levels := Landed(db.levels, t), log := Mem(batch.points + db.log.points, batch.spans + db.log.spans))
  {
    hide MayCommit, Says, InTree, Stamped, Distinct, Landed;
    es := [Commit(batch), Rotate, Flush(Some(t))];
    var d1 := Next(db, es[0]);
    assert batch.points + [] == batch.points && batch.spans + [] == batch.spans;
    assert d1.mem == batch;
    var d2 := Next(d1, es[1]);
    assert d2.imms == [batch] && d2.imms[1..] == [];
    assert es[1..] == [Rotate, Flush(Some(t))] && es[1..][1..] == [Flush(Some(t))] && es[1..][1..][1..] == [];
    var d3 := Next(d2, es[2]);
    assert Enabled(d2, op, es[2]);
    assert Runs(d3, op, []) && Runs(d2, op, es[1..][1..]) && Runs(d1, op, es[1..]);
    assert After(d3, []) == d3 && After(d2, es[1..][1..]) == d3 && After(d1, es[1..]) == d3;
  }

  function Lowered(levels: Tree, l: nat, u: Table): Tree
  {
    seq(if |levels| < l + 2 then l + 2 else |levels|,
        i requires 0 <= i => if i == l then [] else if i == l + 1 then [u] else LevelAt(levels, i))
  }

  lemma WithoutOnly(t: Table)
    ensures Without([t], {t.id}) == []
  {
    assert [t][1..] == [];
  }

  lemma {:induction false} WithoutOthers(ts: seq<Table>, id: nat)
    requires forall x :: x in ts ==> x.id != id
    ensures Without(ts, {id}) == ts
  {
    if ts == [] {
    } else {
      WithoutOthers(ts[1..], id);
      assert ts == [ts[0]] + ts[1..];
    }
  }

  lemma {:induction false} LoweredInstalls(levels: Tree, l: nat, t: Table, u: Table)
    requires l < |levels| && levels[l] == [t] && LevelAt(levels, l + 1) == []
    requires forall i, x :: 0 <= i < |levels| && i != l && x in levels[i] ==> x.id != t.id
    ensures InstallTree(levels, l + 1, [t], [u]) == Lowered(levels, l, u)
  {
    var after := InstallTree(levels, l + 1, [t], [u]);
    assert Ids([t]) == {t.id} by { assert t in [t]; }
    forall i | 0 <= i < |after| ensures after[i] == Lowered(levels, l, u)[i] {
      if i == l {
        WithoutOnly(t);
      } else if i == l + 1 {
        OneSorted(u);
        assert Without([], {t.id}) + [u] == [u];
      } else {
        WithoutOthers(LevelAt(levels, i), t.id);
      }
    }
  }

  lemma {:induction false} OneSorted(u: Table)
    ensures SortByMinKey([u]) == [u]
  {
    assert [u][1..] == [] && SortByMinKey([]) == [];
  }

  lemma {:induction false} OneWindow(t: Table)
    ensures OldestWindow([t], 1) == [t]
  {
    assert [t][0..] == [t] && [t][1..] == [] && Reversed([t][1..]) == [] && [] + [t] == [t];
  }

  /** Push the only table of a level down to an empty one. */
  lemma Moves(db: Db, op: MergeOp, l: nat, t: Table, u: Table, v: Version, frags: seq<Fragment>)
    returns (es: seq<Event>)
    requires db.pending == [] && db.oldest == 0 && db.now == 0
    requires l < |db.levels| && db.levels[l] == [t] && LevelAt(db.levels, l + 1) == []
    requires forall i, x :: 0 <= i < |db.levels| && x in db.levels[i] ==> (i != l ==> x.id != t.id) && x.id != u.id
    requires One(t, v, frags) && One(u, v, frags)
    ensures Runs(db, op, es) && After(db, es) == db.(levels := Lowered(db.levels, l, u))
    ensures forall k: Key :: CleanRun(es, k)
  {
    hide One, FrozenOver, JobResult, CleanKey, LevelOk, Mover, JobMin, JobMax;
    var p := Picked(Mover(op, TargetIsBottom(db.levels, l + 1)), l, l + 1, [t], []);
    es := [Pick(p), Finish(0, [u])];
    MoverResult(op, p.job.bottom, t, u, v, frags);
    OneOk(u, v, frags);
    MoverFields(op, TargetIsBottom(db.levels, l + 1));
    OneWindow(t);
    assert Inputs(p) == [t];
    assert Shaped(db.levels, p);
    var d1 := Next(db, es[0]);
    assert d1.pending == [p];
    assert FreshlyNamed(db.levels, [u]);
    assert Drop([p], 0) == [];
    LoweredInstalls(db.levels, l, t, u);
    var d2 := Next(d1, es[1]);
    assert es[1..] == [Finish(0, [u])] && es[1..][1..] == [];
    assert Runs(d2, op, []) && Runs(d1, op, es[1..]);
    assert After(d2, []) == d2 && After(d1, es[1..]) == d2;
  }

  lemma MoverFields(op: MergeOp, bottom: bool)
    ensures var job := Mover(op, bottom); job.bottom == bottom && job.oldest == 0 && job.now == 0 && job.op == op
  {
  }

  // ---- the run ----------------------------------------------------------------------------------------

  const LOW: Key := 1.0
  const V1 := Version(LOW, 2, Put([9], 0))
  const V2 := Version(5.0, 3, Put([2], 0))
  const FRAGS := [Fragment(LOW, 4.0, [7])]
  const BATCH1 := Mem([V1], [])
  const BATCH2 := Mem([V2], [Span(LOW, 4.0, 7)])

  function Of(id: nat, level: nat, v: Version, frags: seq<Fragment>): Table
  {
    Table(id, level, [v], frags, v.key, v.key, v.seqno, None)
  }

  lemma {:induction false} FragsCover(k: Key)
    ensures Tidy(FRAGS) && CoversOf(FRAGS, k) == SpanCovers(BATCH2.spans, k) == if LOW <= k < 4.0 then {7} else {}
  {
    assert FRAGS[1..] == [] && BATCH2.spans[1..] == [] && Elements([7]) == {7};
  }

  lemma OnesHold(id: nat, level: nat)
    ensures One(Of(id, level, V1, []), V1, []) && One(Of(id, level, V2, FRAGS), V2, FRAGS)
  {
    forall k: Key ensures forall c :: c in CoversOf(FRAGS, k) ==> c > 0 && c != V2.seqno { FragsCover(k); }
  }

  lemma {:induction false} BatchesSay(k: Key)
    ensures Says(InMemory(BATCH1), k) == if k == LOW then map[2 := V1.entry] else map[]
    ensures forall n :: n in Says(InMemory(BATCH2), k) ==> n == 3 || n == 7
    ensures PointsOf(BATCH2.points, k).Keys !! SpanCovers(BATCH2.spans, k)
  {
    OnePoint(V1, k);
    OnePoint(V2, k);
    FragsCover(k);
  }

  lemma FirstCommit()
    ensures MayCommit(Start(0), BATCH1)
  {
    forall k: Key
      ensures PointsOf(BATCH1.points, k).Keys !! SpanCovers(BATCH1.spans, k) && Says(InMemory(EMPTY), k) == map[]
    {
    }
  }

  lemma SecondCommit(db: Db)
    requires db.log == BATCH1
    ensures MayCommit(db, BATCH2)
  {
    forall k: Key ensures PointsOf(BATCH2.points, k).Keys !! SpanCovers(BATCH2.spans, k) { BatchesSay(k); }
    forall k: Key, m: nat, n: nat | m in Says(InMemory(BATCH2), k) && n in Says(InMemory(BATCH1), k)
      ensures m > n
    {
      BatchesSay(k);
    }
  }

  /** The first key is put and moved down to level 2. */
  lemma DownToTwo(op: MergeOp) returns (es: seq<Event>)
    ensures Runs(Start(0), op, es) && forall k: Key :: CleanRun(es, k)
    ensures After(Start(0), es) == Start(0).(levels := [[], [], [Of(3, 2, V1, [])]], log := BATCH1)
  {
    hide Runs, After, CleanRun, MayCommit, One, Says, Stamped, Distinct, LevelOk;
    var t1, t2, t3 := Of(1, 0, V1, []), Of(2, 1, V1, []), Of(3, 2, V1, []);
    OnesHold(1, 0);
    OnesHold(2, 1);
    OnesHold(3, 2);
    OneOk(t1, V1, []);
    FirstCommit();
    forall k: Key ensures Says(OnDisk(t1), k) == Says(InMemory(BATCH1), k) { SaysFirst(t1, k); }
    var a := Lands(Start(0), op, BATCH1, t1);
    var d1 := Start(0).(levels := [[t1]], log := BATCH1);
    assert BATCH1.points + [] == BATCH1.points && BATCH1.spans + [] == [] && [t1] + [] == [t1];
    assert Landed([[]], t1) == [[t1]] && After(Start(0), a) == d1;
    var b := Moves(d1, op, 0, t1, t2, V1, []);
    var d2 := d1.(levels := [[], [t2]]);
    assert Lowered([[t1]], 0, t2) == [[], [t2]];
    var c := Moves(d2, op, 1, t2, t3, V1, []);
    assert Lowered([[], [t2]], 1, t3) == [[], [], [t3]];
    RunsConcat(Start(0), op, a, b);
    RunsConcat(Start(0), op, a + b, c);
    CleanConcat(a, b);
    CleanConcat(a + b, c);
    es := a + b + c;
  }

  lemma SaysFirst(t: Table, k: Key)
    requires t.points == BATCH1.points && t.frags == []
    ensures Says(OnDisk(t), k) == Says(InMemory(BATCH1), k)
  {
  }

  lemma SaysSecond(t: Table, k: Key)
    requires t.points == BATCH2.points && t.frags == FRAGS
    ensures Says(OnDisk(t), k) == Says(InMemory(BATCH2), k)
  {
    FragsCover(k);
  }

  /** The other key and the range delete land on L0 and move to level 1. */
  lemma OverIt(db: Db, op: MergeOp) returns (es: seq<Event>)
    requires db == Start(0).(levels := [[], [], [Of(3, 2, V1, [])]], log := BATCH1)
    ensures Runs(db, op, es) && forall k: Key :: CleanRun(es, k)
    ensures After(db, es) == db.(levels := [[], [Of(5, 1, V2, FRAGS)], [Of(3, 2, V1, [])]],
                                 log := Mem(BATCH2.points + BATCH1.points, BATCH2.spans + BATCH1.spans))
  {
    hide Runs, After, CleanRun, MayCommit, One, Says;
    var t3, t4, t5 := Of(3, 2, V1, []), Of(4, 0, V2, FRAGS), Of(5, 1, V2, FRAGS);
    OnesHold(4, 0);
    OnesHold(5, 1);
    OneOk(t4, V2, FRAGS);
    SecondCommit(db);
    forall k: Key ensures Says(OnDisk(t4), k) == Says(InMemory(BATCH2), k) { SaysSecond(t4, k); }
    var a := Lands(db, op, BATCH2, t4);
    var d1 := db.(levels := [[t4], [], [t3]], log := Mem(BATCH2.points + BATCH1.points, BATCH2.spans + BATCH1.spans));
    assert [t4] + [] == [t4] && Landed(db.levels, t4) == [[t4], [], [t3]];
    var b := Moves(d1, op, 0, t4, t5, V2, FRAGS);
    assert Lowered([[t4], [], [t3]], 0, t5) == [[], [t5], [t3]];
    RunsConcat(db, op, a, b);
    CleanConcat(a, b);
    es := a + b;
  }

  // ---- the read -----------------------------------------------------------------------------------------

  lemma {:induction false} ReadPut(r: Reader, h: History, n: nat, v: Value, s: nat)
    requires h == map[n := Put(v, 0)] && n <= s
    ensures Read(r, h, s) == Found(v)
  {
    WalkSkip(h, n, s);
    assert Walk(h, n) == Chain([], Live(v, 0));
  }

  lemma {:induction false} ReadDeleted(r: Reader, h: History, n: nat, s: nat)
    requires n in h && h[n].Tombstone? && n <= s && forall m :: m in h ==> m <= n
    ensures Read(r, h, s) == NotFound
  {
    WalkSkip(h, n, s);
    assert Walk(h, n) == Chain([], Deleted);
  }

  lemma {:induction false} LogDeletes(k: Key)
    requires k == LOW
    ensures var h := Says(InMemory(Mem(BATCH2.points + BATCH1.points, BATCH2.spans + BATCH1.spans)), k);
            7 in h && h[7].Tombstone? && forall m :: m in h ==> m <= 7
  {
    assert BATCH2.spans + BATCH1.spans == BATCH2.spans;
    FragsCover(k);
    PointsConcat(BATCH2.points, BATCH1.points, k);
    OnePoint(V1, k);
    OnePoint(V2, k);
  }

  lemma {:induction false} ChosenMiss(t: Table, u: Table)
    requires t == Of(3, 2, V1, []) && u == Of(5, 1, V2, FRAGS)
    ensures PointTables([[], [u], [t]], LOW) == [t] && RangeTables([[], [u], [t]], LOW) == []
  {
    var levels := [[], [u], [t]];
    assert levels[1..] == [[u], [t]] && levels[1..][1..] == [[t]] && levels[1..][1..][1..] == [];
    assert Hit([u], LOW) == None && Gap([u], LOW) == None && Hit([t], LOW) == Some(0) && Gap([t], LOW) == None;
    assert HitTables([], LOW) == [] && GapTables([], LOW) == [];
    assert HitTables([[t]], LOW) == [t] && GapTables([[t]], LOW) == [];
    assert HitTables([[u], [t]], LOW) == [t] && GapTables([[u], [t]], LOW) == [];
    assert L0Tables([], LOW) == [] && L0Ranged([], LOW) == [];
  }

  /** What the chosen sources say: the put alone. */
  lemma {:induction false} ChosenSay(db: Db, t: Table)
    requires db.mem == EMPTY && db.imms == [] && t == Of(3, 2, V1, [])
    ensures Whole(MemProbes(db, LOW) + TableProbes([t], LOW), []) == map[2 := V1.entry]
  {
    var a, b := ProbeOf(InMemory(EMPTY), LOW), ProbeOf(OnDisk(t), LOW);
    var probed := MemProbes(db, LOW) + TableProbes([t], LOW);
    OnePoint(V1, LOW);
    assert probed == [a, b] && [a, b][1..] == [b] && [b][1..] == [] && probed + [] == probed;
    assert Points([b]) == b.points && Points(probed) == b.points && Covers([b]) == {} && Covers(probed) == {};
  }

  lemma NotFoundThere(u: Table)
    requires u == Of(5, 1, V2, FRAGS)
    ensures !Finds([u], LOW)
  {
    FragsCover(LOW);
    assert 7 in CoversOf([u][0].frags, LOW);
    assert Hit([u], LOW) == None && Gap([u], LOW) == None;
  }

  /** A run of clean jobs after which a point read, the modelled one, finds a key the log says
      was deleted. */
  lemma MisreadRun(op: MergeOp) returns (es: seq<Event>)
    ensures Runs(Start(0), op, es) && forall k: Key :: CleanRun(es, k)
    ensures var db, r := After(Start(0), es), Reader(op, LOW, 0);
            && db.oldest == 0 && db.now == 0 && Ordered(db) && !Served(db.levels, LOW)
            && Read(r, LogHistory(db, LOW), 10) == NotFound && Read(r, ReadHistory(db, LOW), 10) == Found([9])
  {
    hide Runs, After, CleanRun, Read, Says, PointTables, RangeTables, Whole, MemProbes, Finds, Inv;
    var a := DownToTwo(op);
    var mid := After(Start(0), a);
    var b := OverIt(mid, op);
    RunsConcat(Start(0), op, a, b);
    CleanConcat(a, b);
    es := a + b;
    var db, r := After(Start(0), es), Reader(op, LOW, 0);
    var t, u := Of(3, 2, V1, []), Of(5, 1, V2, FRAGS);
    RunOrdered(op, 0, es);
    LogDeletes(LOW);
    ReadDeleted(r, LogHistory(db, LOW), 7, 10);
    ChosenMiss(t, u);
    ChosenSay(db, t);
    ReadPut(r, map[2 := V1.entry], 2, [9], 10);
    assert TableProbes([], LOW) == [];
    NotFoundThere(u);
    assert db.levels[1] == [u];
  }
}
