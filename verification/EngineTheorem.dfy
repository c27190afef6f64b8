/** The whole-run theorem: background work is invisible to every reader. */
module EngineTheorem {
  import opened Semantics
  import opened Fragments
  import opened Tables
  import opened RunSpan
  import opened JobTheorem
  import opened Levels
  import opened Sources
  import opened Install
  import opened Engine
  import opened EngineFacts
  import opened EngineSteps
  import opened EngineFinish
  import opened EngineReads
  import opened EngineJobs

  // ---- jobs -------------------------------------------------------------------------------

  /** Reads depend only on the sources, the log and the watermarks. */
  lemma SameReads(db: Db, db2: Db, op: MergeOp, k: Key)
    requires Faithful(db, op, k)
    requires db2.log == db.log && db2.oldest >= db.oldest && db2.now >= db.now
    requires forall s: nat :: s >= db2.oldest ==> Walk(DbHistory(db2, k), s) == Walk(DbHistory(db, k), s)
    ensures Faithful(db2, op, k)
  {
    assert LogHistory(db2, k) == LogHistory(db, k);
  }

  lemma SameSources(db: Db, db2: Db)
    requires Logged(db) && db2.log == db.log
    requires db2.mem == db.mem && db2.imms == db.imms && db2.levels == db.levels
    ensures Logged(db2) && forall k: Key :: DbHistory(db2, k) == DbHistory(db, k)
  {
    assert DbSources(db2) == DbSources(db);
    assert forall k: Key :: LogHistory(db2, k) == LogHistory(db, k);
  }

  lemma DropPairs(jobs: seq<Picked>, slot: nat)
    requires PairsOk(jobs) && slot < |jobs|
    ensures PairsOk(Drop(jobs, slot))
    ensures forall i :: 0 <= i < |jobs| - 1 ==> Drop(jobs, slot)[i] == jobs[if i < slot then i else i + 1]
  {
  }

  lemma PickPairs(db: Db, op: MergeOp, p: Picked)
    requires TablesOk(db.levels) && PendingOk(db, op) && MayPick(db, op, p) && InPlace(db.levels, p)
    ensures PairsOk(db.pending + [p])
  {
    forall i | 0 <= i < |db.pending| ensures Compatible(p, db.pending[i]) && Compatible(db.pending[i], p) {
      LocksBeside(db.levels, p, db.pending[i]);
    }
  }

  lemma PickKeeps(db: Db, op: MergeOp, p: Picked)
    requires Inv(db, op) && MayPick(db, op, p)
    ensures Inv(Next(db, Pick(p)), op)
  {
    PickInPlace(db.levels, p);
    PickPairs(db, op, p);
    assert JobsOk(db.levels, db.pending + [p], op, db.oldest, db.now);
    SameSources(db, Next(db, Pick(p)));
  }

  lemma FailKeeps(db: Db, op: MergeOp, slot: nat)
    requires Inv(db, op) && slot < |db.pending|
    ensures Inv(Next(db, Fail(slot)), op)
  {
    DropPairs(db.pending, slot);
    SameSources(db, Next(db, Fail(slot)));
  }

  lemma FinishSwaps(db: Db, op: MergeOp, slot: nat, outputs: seq<Table>)
    requires Inv(db, op) && MayFinish(db, slot, outputs)
    ensures Swapping(db, db.pending[slot], outputs)
    ensures forall k: Key :: DbHistory(Next(db, Finish(slot, outputs)), k) ==
              DbHistory(Swapped(db, db.pending[slot], outputs), k)
  {
    hide JobResult;
    assert InPlace(db.levels, db.pending[slot]);
  }

  lemma FinishedLogged(db: Db, p: Picked, outputs: seq<Table>, k: Key, n: nat)
    requires Swapping(db, p, outputs) && n in DbHistory(Swapped(db, p, outputs), k)
    requires FrozenOver(p.job, Inputs(p)) && JobResult(p.job, Inputs(p), outputs)
    ensures n in DbHistory(db, k)
  {
    hide DbHistory, Swapped, HistoryOf, FrozenOver, JobResult;
    AfterWithin(db, p, outputs, k, n);
    SplitBefore(db, p, outputs, k);
    if n in HistoryOf(outputs, k) { JobShrinks(p.job, Inputs(p), outputs, k, n); }
  }

  lemma FinishLogged(db: Db, op: MergeOp, slot: nat, outputs: seq<Table>)
    requires Inv(db, op) && MayFinish(db, slot, outputs)
    ensures Logged(Next(db, Finish(slot, outputs)))
  {
    hide DbHistory, Swapped, Swapping, JobResult, FreshlyNamed, InPlace;
    var p, db2 := db.pending[slot], Next(db, Finish(slot, outputs));
    FinishSwaps(db, op, slot, outputs);
    forall k: Key, n: nat | n in DbHistory(db2, k) ensures n in LogHistory(db2, k) {
      FinishedLogged(db, p, outputs, k, n);
    }
  }

  lemma {:induction false} FinishRead(db: Db, op: MergeOp, p: Picked, outputs: seq<Table>, k: Key, t: int, s: nat)
    requires Swapping(db, p, outputs) && Associative(op) && Frozen(p, op, s, t) && CleanKey(p.job, Inputs(p), k)
    requires Equiv(Reader(op, k, t), Walk(DbHistory(db, k), s), Walk(LogHistory(db, k), s))
    ensures Equiv(Reader(op, k, t), Walk(DbHistory(Swapped(db, p, outputs), k), s), Walk(LogHistory(db, k), s))
  {
    hide Swapping, Swapped, DbHistory, LogHistory, Equiv, Walk, Frozen, Associative;
    var r, before, after := Reader(op, k, t), Walk(DbHistory(db, k), s), Walk(DbHistory(Swapped(db, p, outputs), k), s);
    SwapKeepsReads(db, p, outputs, r, s);
    EquivSym(r, before, after);
    EquivTrans(r, after, before, Walk(LogHistory(db, k), s));
  }

  lemma FrozenLater(p: Picked, op: MergeOp, oldest: nat, now: int, s: nat, t: int)
    requires Frozen(p, op, oldest, now) && s >= oldest && t >= now
    ensures Frozen(p, op, s, t)
  {
  }

  lemma FinishReads(db: Db, op: MergeOp, slot: nat, outputs: seq<Table>, k: Key)
    requires Inv(db, op) && Associative(op) && MayFinish(db, slot, outputs)
    requires Faithful(db, op, k) && CleanKey(db.pending[slot].job, Inputs(db.pending[slot]), k)
    ensures Faithful(Next(db, Finish(slot, outputs)), op, k)
  {
    hide DbHistory, Swapped, Swapping, JobResult, FreshlyNamed, InPlace, Frozen, Equiv, Walk, Associative, LevelOk,
        CleanKey;
    var p, db2 := db.pending[slot], Next(db, Finish(slot, outputs));
    FinishSwaps(db, op, slot, outputs);
    forall t: int, s: nat | t >= db2.now && s >= db2.oldest
      ensures Equiv(Reader(op, k, t), Walk(DbHistory(db2, k), s), Walk(LogHistory(db2, k), s))
    {
      FrozenLater(p, op, db.oldest, db.now, s, t);
      FinishRead(db, op, p, outputs, k, t, s);
    }
  }

  lemma EquivSym(r: Reader, a: Chain, b: Chain)
    requires Equiv(r, a, b)
    ensures Equiv(r, b, a)
  {
    forall newer: seq<Value> ensures ResolveUnder(r, newer, b) == ResolveUnder(r, newer, a) {
      assert ResolveUnder(r, newer, a) == ResolveUnder(r, newer, b);
    }
  }

  lemma FinishBeside(db: Db, op: MergeOp, slot: nat, outputs: seq<Table>, j: nat)
    requires Inv(db, op) && MayFinish(db, slot, outputs) && j < |db.pending| && j != slot
    ensures InPlace(Done(db.levels, db.pending[slot], outputs), db.pending[j])
  {
    var p, q := db.pending[slot], db.pending[j];
    assert Compatible(p, q) && Compatible(q, p);
    assert InPlace(db.levels, p) && InPlace(db.levels, q) && Frozen(q, op, db.oldest, db.now);
    CrossInPlace(db.levels, p, outputs, q);
  }

  lemma FinishPending(db: Db, op: MergeOp, slot: nat, outputs: seq<Table>)
    requires Inv(db, op) && MayFinish(db, slot, outputs)
    ensures PendingOk(Next(db, Finish(slot, outputs)), op)
  {
    DropPairs(db.pending, slot);
    forall j | 0 <= j < |db.pending| && j != slot
      ensures InPlace(Done(db.levels, db.pending[slot], outputs), db.pending[j])
    {
      FinishBeside(db, op, slot, outputs, j);
    }
  }

  lemma FinishKeeps(db: Db, op: MergeOp, slot: nat, outputs: seq<Table>)
    requires Inv(db, op) && MayFinish(db, slot, outputs)
    ensures Inv(Next(db, Finish(slot, outputs)), op)
  {
    FinishSwaps(db, op, slot, outputs);
    SwappedOrdered(db, db.pending[slot], outputs);
    FinishLogged(db, op, slot, outputs);
    FinishPending(db, op, slot, outputs);
  }

  // ---- excise -----------------------------------------------------------------------------

  /** Dropping tables by id drops exactly those tables. */
  lemma {:induction false} DropMembers(levels: Tree, doomed: seq<Table>, i: nat, t: Table)
    requires TablesOk(levels) && (forall d :: d in doomed ==> InTree(levels, d)) && i < |levels|
    ensures t in DropIds(levels, Ids(doomed))[i] <==> t in levels[i] && t !in doomed
  {
    WithoutIn(levels[i], Ids(doomed), t);
    if t in levels[i] && t.id in Ids(doomed) {
      var d :| d in doomed && d.id == t.id;
      assert InTree(levels, t);
    }
  }

  lemma {:induction false} DropInTree(levels: Tree, doomed: seq<Table>, t: Table)
    requires TablesOk(levels) && (forall d :: d in doomed ==> InTree(levels, d))
    ensures InTree(DropIds(levels, Ids(doomed)), t) <==> InTree(levels, t) && t !in doomed
  {
    var after := DropIds(levels, Ids(doomed));
    if InTree(after, t) {
      var i :| 0 <= i < |after| && t in after[i];
      DropMembers(levels, doomed, i, t);
    }
    if InTree(levels, t) && t !in doomed {
      var i :| 0 <= i < |levels| && t in levels[i];
      DropMembers(levels, doomed, i, t);
    }
  }

  lemma ExciseOrdered(db: Db, doomed: seq<Table>)
    requires Ordered(db) && forall d :: d in doomed ==> InTree(db.levels, d)
    ensures Ordered(Next(db, Excise(doomed)))
  {
    hide InTree;
    var after := DropIds(db.levels, Ids(doomed));
    forall t ensures InTree(after, t) <==> InTree(db.levels, t) && t !in doomed { DropInTree(db.levels, doomed, t); }
    forall i | 1 <= i < |after| ensures LevelOk(after[i]) { WithoutLevel(db.levels[i], Ids(doomed)); }
    ExciseTree(db.levels, doomed);
  }

  lemma {:induction false} ExciseTree(levels: Tree, doomed: seq<Table>)
    requires TablesOk(levels) && TreeOrdered(levels) && forall d :: d in doomed ==> InTree(levels, d)
    ensures TreeOrdered(DropIds(levels, Ids(doomed)))
  {
    var after := DropIds(levels, Ids(doomed));
    forall a, b, x, y | 0 <= a < b < |after| && x in after[a] && y in after[b]
      ensures NewerSource(OnDisk(x), OnDisk(y))
    {
      DropMembers(levels, doomed, a, x);
      DropMembers(levels, doomed, b, y);
    }
    if levels != [] {
      forall i, j | 0 <= i < j < |after[0]| ensures NewerSource(OnDisk(after[0][i]), OnDisk(after[0][j])) {
        var a, b := WithoutPicks(levels[0], Ids(doomed), i, j);
      }
    }
  }

  lemma ExciseKept(db: Db, doomed: seq<Table>, s: Source)
    requires Ordered(db) && (forall d :: d in doomed ==> InTree(db.levels, d))
    ensures IsSource(Next(db, Excise(doomed)), s) <==> IsSource(db, s) && (s.OnDisk? ==> s.table !in doomed)
  {
    hide TablesOk;
    if s.OnDisk? { DropInTree(db.levels, doomed, s.table); }
  }

  lemma ExciseWithin(db: Db, doomed: seq<Table>, k: Key, n: nat)
    requires Ordered(db) && (forall d :: d in doomed ==> InTree(db.levels, d))
    requires n in DbHistory(Next(db, Excise(doomed)), k)
    ensures n in DbHistory(db, k) && DbHistory(db, k)[n] == DbHistory(Next(db, Excise(doomed)), k)[n]
  {
    var s := DbWhere(Next(db, Excise(doomed)), k, n);
    ExciseKept(db, doomed, s);
    DbValue(db, s, k, n);
  }

  lemma DoomedPoint(t: Table, k: Key, n: nat)
    requires WellFormed(t) && !HasRanges(t) && n in Says(OnDisk(t), k)
    ensures t.minKey <= k <= t.maxKey && n <= t.maxSeq
  {
    var i := PointsWitness(t.points, k, n);
  }

  lemma ExciseGone(db: Db, doomed: seq<Table>, k: Key, n: nat) returns (t: Table)
    requires Ordered(db) && (forall d :: d in doomed ==> InTree(db.levels, d))
    requires n in DbHistory(db, k) && n !in DbHistory(Next(db, Excise(doomed)), k)
    ensures t in doomed && n in Says(OnDisk(t), k)
  {
    var s := DbWhere(db, k, n);
    ExciseKept(db, doomed, s);
    ExciseOrdered(db, doomed);
    if IsSource(Next(db, Excise(doomed)), s) { DbValue(Next(db, Excise(doomed)), s, k, n); }
    t := s.table;
  }

  /** Whatever excise drops lies under a settled range delete that stays. */
  lemma ExciseCovers(db: Db, doomed: seq<Table>, k: Key, n: nat) returns (c: nat)
    requires Ordered(db) && Excisable(db.levels, db.oldest, doomed)
    requires n in DbHistory(db, k) && n !in DbHistory(Next(db, Excise(doomed)), k)
    ensures n < c <= db.oldest
    ensures c in DbHistory(Next(db, Excise(doomed)), k) && DbHistory(Next(db, Excise(doomed)), k)[c].Tombstone?
  {
    var t := ExciseGone(db, doomed, k, n);
    DoomedPoint(t, k, n);
    assert Covered(db.levels, db.oldest, t, k);
    var u, d: nat :| InTree(db.levels, u) && d in CoversOf(u.frags, k) && t.maxSeq < d <= db.oldest;
    ExciseKept(db, doomed, OnDisk(u));
    ExciseOrdered(db, doomed);
    DbValue(Next(db, Excise(doomed)), OnDisk(u), k, d);
    c := d;
  }

  lemma {:induction false} ExciseSame(db: Db, doomed: seq<Table>, k: Key, s: nat)
    requires Ordered(db) && Excisable(db.levels, db.oldest, doomed) && s >= db.oldest
    ensures Walk(DbHistory(db, k), s) == Walk(DbHistory(Next(db, Excise(doomed)), k), s)
  {
    var g, h := DbHistory(db, k), DbHistory(Next(db, Excise(doomed)), k);
    forall n | n in h ensures n in g && g[n] == h[n] { ExciseWithin(db, doomed, k, n); }
    forall n: nat | n in g && n !in h && n <= s ensures exists c: nat :: n < c <= s && c in h && h[c].Tombstone? {
      var c := ExciseCovers(db, doomed, k, n);
    }
    WalkRemove(g, h, s);
  }

  lemma {:induction false} ExciseTail(levels: Tree, doomed: seq<Table>, q: Picked)
    requires TablesOk(levels) && (forall d :: d in doomed ==> InTree(levels, d))
    requires HoldsTail(levels, q) && forall y :: y in Inputs(q) ==> y !in doomed
    ensures HoldsTail(DropIds(levels, Ids(doomed)), q)
  {
    hide Without;
    hide Inputs;
    if q.level == 0 {
      var last := levels[0][|levels[0]| - 1];
      assert InTree(levels, last);
      forall d | d in doomed ensures d.id != last.id { assert d != last; }
      WithoutLast(levels[0], Ids(doomed));
    }
  }

  lemma {:induction false} ExciseInPlace(levels: Tree, doomed: seq<Table>, q: Picked)
    requires TablesOk(levels) && (forall d :: d in doomed ==> InTree(levels, d))
    requires InPlace(levels, q) && forall y :: y in Inputs(q) ==> y !in doomed
    ensures InPlace(DropIds(levels, Ids(doomed)), q)
  {
    var after := DropIds(levels, Ids(doomed));
    ExciseTail(levels, doomed, q);
    forall i: nat, t | i < |levels| && t in after[i] ensures t in levels[i] { DropMembers(levels, doomed, i, t); }
    forall y | y in Inputs(q) ensures y in LevelAt(after, q.level) || y in LevelAt(after, q.target) {
      DropMembers(levels, doomed, if y in LevelAt(levels, q.level) then q.level else q.target, y);
    }
    forall x | x in LevelAt(after, q.target) && x !in Inputs(q) ensures Beside([x], Inputs(q)) {
      assert x in LevelAt(levels, q.target);
    }
  }

  lemma ExciseSpares(db: Db, op: MergeOp, doomed: seq<Table>, i: nat)
    requires TablesOk(db.levels) && PendingOk(db, op) && MayExcise(db, doomed) && i < |db.pending|
    ensures InPlace(db.levels, db.pending[i]) && forall y :: y in Inputs(db.pending[i]) ==> y !in doomed
  {
    forall y | y in Inputs(db.pending[i]) ensures y !in doomed {
      InputLive(db.levels, db.pending[i], y);
      if y in doomed { LocksDisjoint(doomed, Inputs(db.pending[i]), y); }
    }
  }

  lemma ExcisePending(db: Db, op: MergeOp, doomed: seq<Table>)
    requires TablesOk(db.levels) && PendingOk(db, op) && MayExcise(db, doomed)
    ensures PendingOk(Next(db, Excise(doomed)), op)
  {
    forall i | 0 <= i < |db.pending| ensures InPlace(Next(db, Excise(doomed)).levels, db.pending[i]) {
      ExciseSpares(db, op, doomed, i);
      ExciseInPlace(db.levels, doomed, db.pending[i]);
    }
  }

  lemma ExciseKeeps(db: Db, op: MergeOp, doomed: seq<Table>)
    requires Inv(db, op) && MayExcise(db, doomed)
    ensures Inv(Next(db, Excise(doomed)), op)
  {
    var db2 := Next(db, Excise(doomed));
    ExciseOrdered(db, doomed);
    ExcisePending(db, op, doomed);
    forall k: Key, n: nat | n in DbHistory(db2, k) ensures n in DbHistory(db, k) {
      ExciseWithin(db, doomed, k, n);
    }
    assert forall k: Key :: LogHistory(db2, k) == LogHistory(db, k);
  }

  lemma ExciseReads(db: Db, op: MergeOp, doomed: seq<Table>, k: Key)
    requires Inv(db, op) && Faithful(db, op, k) && MayExcise(db, doomed)
    ensures Faithful(Next(db, Excise(doomed)), op, k)
  {
    hide DbHistory, Walk;
    var db2 := Next(db, Excise(doomed));
    forall s: nat | s >= db.oldest ensures Walk(DbHistory(db2, k), s) == Walk(DbHistory(db, k), s) {
      ExciseSame(db, doomed, k, s);
    }
    SameReads(db, db2, op, k);
  }

  // ---- runs -------------------------------------------------------------------------------

  lemma AdvanceKeeps(db: Db, op: MergeOp, oldest: nat, now: int)
    requires Inv(db, op) && oldest >= db.oldest && now >= db.now
    ensures Inv(Next(db, Advance(oldest, now)), op)
  {
    SameSources(db, Next(db, Advance(oldest, now)));
  }

  /** Every step keeps the layout, the order of sources and what jobs in flight rely on. */
  lemma StepKeeps(db: Db, op: MergeOp, e: Event)
    requires Inv(db, op) && Enabled(db, op, e)
    ensures Inv(Next(db, e), op)
  {
    match e
    case Commit(batch) => CommitKeeps(db, op, batch);
    case Rotate => RotateKeeps(db, op);
    case Flush(table) => FlushKeeps(db, op, table);
    case Pick(p) => PickKeeps(db, op, p);
    case Finish(slot, outputs) => FinishKeeps(db, op, slot, outputs);
    case Fail(slot) => FailKeeps(db, op, slot);
    case Excise(doomed) => ExciseKeeps(db, op, doomed);
    case Advance(oldest, now) => AdvanceKeeps(db, op, oldest, now);
  }

  /** Every step keeps the reads of `k`. */
  lemma StepReads(db: Db, op: MergeOp, e: Event, k: Key)
    requires Inv(db, op) && Inv(Next(db, e), op) && Associative(op) && Enabled(db, op, e)
    requires Faithful(db, op, k) && CleanJobs(db.pending, k)
    ensures Faithful(Next(db, e), op, k)
  {
    hide DbHistory, Faithful, CleanKey, Associative, MayExcise, MayFlush, MayCommit, MayPick, JobResult, LevelOk,
        FreshlyNamed;
    match e
    case Commit(batch) => CommitReads(db, op, batch, k);
    case Rotate => RotateSame(db, k); SameReads(db, Next(db, e), op, k);
    case Flush(table) => FlushHistory(db, table, k); SameReads(db, Next(db, e), op, k);
    case Finish(slot, outputs) => FinishReads(db, op, slot, outputs, k);
    case Excise(doomed) => ExciseReads(db, op, doomed, k);
    case _ => SameSources(db, Next(db, e)); SameReads(db, Next(db, e), op, k);
  }

  lemma StepClean(db: Db, e: Event, k: Key)
    requires CleanJobs(db.pending, k) && CleanRun([e], k)
    ensures CleanJobs(Next(db, e).pending, k)
  {
    if e.Pick? { assert e in [e]; }
  }

  lemma StartHolds(op: MergeOp, now: int)
    ensures Inv(Start(now), op)
    ensures forall k: Key :: Faithful(Start(now), op, k)
  {
    var db := Start(now);
    forall s | IsSource(db, s) ensures s == InMemory(EMPTY) {}
    forall k: Key ensures DbHistory(db, k) == map[] && LogHistory(db, k) == map[] {
      assert AllTables([[]]) == [] + AllTables([[]][1..]);
      assert DbSources(db) == [InMemory(EMPTY)];
      assert Union(DbSources(db)[1..], k) == map[];
    }
  }

  lemma {:induction false} RunKeeps(db: Db, op: MergeOp, events: seq<Event>)
    requires Inv(db, op) && Runs(db, op, events)
    ensures Inv(After(db, events), op)
    decreases |events|
  {
    if events == [] {
    } else {
      StepKeeps(db, op, events[0]);
      RunKeeps(Next(db, events[0]), op, events[1..]);
    }
  }

  lemma {:induction false} RunReads(db: Db, op: MergeOp, events: seq<Event>, k: Key)
    requires Inv(db, op) && Associative(op) && Runs(db, op, events)
    requires Faithful(db, op, k) && CleanJobs(db.pending, k) && CleanRun(events, k)
    ensures Faithful(After(db, events), op, k)
    decreases |events|
  {
    hide Inv, Faithful, CleanJobs, CleanKey, Enabled, Next;
    if events == [] {
    } else {
      StepKeeps(db, op, events[0]);
      StepReads(db, op, events[0], k);
      StepClean(db, events[0], k);
      RunReads(Next(db, events[0]), op, events[1..], k);
    }
  }

  /** After any run of commits, rotations, flushes, concurrent compactions and excises whose
      jobs are clean at `k`, every read of `k` at or above the oldest live snapshot answers
      from the log. */
  lemma {:induction false} ReadsAreTheLog(op: MergeOp, start: int, events: seq<Event>, k: Key, now: int, s: nat)
    requires Associative(op) && Runs(Start(start), op, events) && CleanRun(events, k)
    requires now >= After(Start(start), events).now && s >= After(Start(start), events).oldest
    ensures var db := After(Start(start), events);
            Read(Reader(op, k, now), DbHistory(db, k), s) == Read(Reader(op, k, now), LogHistory(db, k), s)
  {
    StartHolds(op, start);
    RunReads(Start(start), op, events, k);
    var db := After(Start(start), events);
    EquivResolves(Reader(op, k, now), Walk(DbHistory(db, k), s), Walk(LogHistory(db, k), s));
  }
}
