/**
 A column family as a state machine.

 Commits, memtable rotation, flushes, any number of range-locked compaction jobs in
 flight, their installs and failures, and excise, in any interleaving. The invariant
 ties what the sources say together to the log of everything ever committed.
 */
module Engine {
  import opened Semantics
  import opened Rewrite
  import opened Fragments
  import opened Tables
  import opened RunSpan
  import opened JobTheorem
  import opened PlanSpans
  import opened Levels
  import opened Sources
  import opened Install

  /** A job from its pick to its install: the tables pushed down, then the overlapping
      target tables. */
  datatype Picked = Picked(job: Job, level: nat, target: nat, source: seq<Table>, gathered: seq<Table>)

  function Inputs(p: Picked): seq<Table>
  {
    p.source + p.gathered
  }

  /** `imms` oldest first, `levels[0]` newest first; `log` is every batch ever committed. */
  datatype Db = Db(mem: Mem, imms: seq<Mem>, levels: Tree, pending: seq<Picked>, oldest: nat, now: int, log: Mem)

  ghost predicate InTree(levels: Tree, t: Table)
  {
    exists i :: 0 <= i < |levels| && t in levels[i]
  }

  function AllTables(levels: Tree): (r: seq<Table>)
    ensures forall t :: t in r <==> InTree(levels, t)
  {
    if levels == [] then [] else levels[0] + AllTables(levels[1..])
  }

  function DbSources(db: Db): seq<Source>
  {
    [InMemory(db.mem)] + seq(|db.imms|, i requires 0 <= i < |db.imms| => InMemory(db.imms[i])) +
        TableSources(AllTables(db.levels))
  }

  ghost predicate IsSource(db: Db, s: Source)
  {
    match s
    case InMemory(m) => m == db.mem || m in db.imms
    case OnDisk(t) => InTree(db.levels, t)
  }

  function DbHistory(db: Db, k: Key): History
  {
    Union(DbSources(db), k)
  }

  function LogHistory(db: Db, k: Key): History
  {
    Says(InMemory(db.log), k)
  }

  lemma SourceIff(db: Db, s: Source)
    ensures s in DbSources(db) <==> IsSource(db, s)
  {
    var a, b, c := [InMemory(db.mem)], seq(|db.imms|, i requires 0 <= i < |db.imms| => InMemory(db.imms[i])),
        TableSources(AllTables(db.levels));
    assert s in DbSources(db) <==> s in a || s in b || s in c;
    assert s in b <==> s.InMemory? && s.mem in db.imms by {
      if s.InMemory? && s.mem in db.imms {
        var i :| 0 <= i < |db.imms| && db.imms[i] == s.mem;
        assert b[i] == s;
      }
    }
    assert s in c <==> s.OnDisk? && InTree(db.levels, s.table) by {
      if s.OnDisk? && InTree(db.levels, s.table) {
        var ts := AllTables(db.levels);
        var i :| 0 <= i < |ts| && ts[i] == s.table;
        assert c[i] == s;
      }
    }
  }

  // ---- the invariant -----------------------------------------------------------------

  /** Every table is well formed; levels below L0 are in key order; ids name tables. */
  ghost predicate TablesOk(levels: Tree)
  {
    && (forall t :: InTree(levels, t) ==> Stamped(t) && Distinct(OnDisk(t)))
    && (forall i :: 1 <= i < |levels| ==> LevelOk(levels[i]))
    && (forall t, u :: InTree(levels, t) && InTree(levels, u) && t.id == u.id ==> t == u)
  }

  /** Newer data sits above older data: within L0 by position, elsewhere by level. */
  ghost predicate TreeOrdered(levels: Tree)
  {
    && (forall a, b, x, y :: 0 <= a < b < |levels| && x in levels[a] && y in levels[b] ==>
          NewerSource(OnDisk(x), OnDisk(y)))
    && (levels != [] ==> forall i, j :: 0 <= i < j < |levels[0]| ==>
          NewerSource(OnDisk(levels[0][i]), OnDisk(levels[0][j])))
  }

  ghost predicate MemsOrdered(db: Db)
  {
    && Distinct(InMemory(db.mem)) && (forall m :: m in db.imms ==> Distinct(InMemory(m)))
    && (forall m :: m in db.imms ==> NewerSource(InMemory(db.mem), InMemory(m)))
    && (forall i, j :: 0 <= i < j < |db.imms| ==> NewerSource(InMemory(db.imms[j]), InMemory(db.imms[i])))
    && (forall m, t :: (m == db.mem || m in db.imms) && InTree(db.levels, t) ==> NewerSource(InMemory(m), OnDisk(t)))
  }

  /** The sources hold nothing that was not committed. */
  ghost predicate Logged(db: Db)
  {
    Distinct(InMemory(db.log)) && forall k: Key, n: nat :: n in DbHistory(db, k) ==> n in LogHistory(db, k)
  }

  /** No reader of `k` at or above `oldest` can tell the sources from the log. */
  ghost predicate Faithful(db: Db, op: MergeOp, k: Key)
  {
    forall t: int, s: nat :: t >= db.now && s >= db.oldest ==>
      Equiv(Reader(op, k, t), Walk(DbHistory(db, k), s), Walk(LogHistory(db, k), s))
  }

  ghost predicate InputsHeld(levels: Tree, p: Picked)
  {
    forall y :: y in Inputs(p) ==> y in LevelAt(levels, p.level) || y in LevelAt(levels, p.target)
  }

  /** Whatever else sits at or above the target is newer than the inputs. */
  ghost predicate InputsUnder(levels: Tree, p: Picked)
  {
    forall a, x, y :: 0 <= a < |levels| && a <= p.target && x in levels[a] && x !in Inputs(p) && y in Inputs(p) ==>
      NewerSource(OnDisk(x), OnDisk(y))
  }

  ghost predicate TargetBeside(levels: Tree, p: Picked)
  {
    forall x :: x in LevelAt(levels, p.target) && x !in Inputs(p) ==> Beside([x], Inputs(p))
  }

  /** An L0 job holds the oldest L0 table. */
  ghost predicate HoldsTail(levels: Tree, p: Picked)
  {
    p.level == 0 ==> levels != [] && levels[0] != [] && levels[0][|levels[0]| - 1] in Inputs(p)
  }

  /** Nothing lies under the keys of a bottom job. */
  ghost predicate BareBelow(levels: Tree, p: Picked)
  {
    p.job.bottom ==> forall b, z, y, k: Key :: p.target < b < |levels| && z in levels[b] && y in Inputs(p) ==>
      !(Touches(z, k) && Touches(y, k))
  }

  /** The place an in-flight job keeps in the tree until it installs or fails. */
  ghost predicate InPlace(levels: Tree, p: Picked)
  {
    && 1 <= p.target && (p.target == p.level || p.target == p.level + 1)
    && InputsHeld(levels, p) && InputsUnder(levels, p) && TargetBeside(levels, p)
    && HoldsTail(levels, p) && BareBelow(levels, p)
  }

  ghost predicate Frozen(p: Picked, op: MergeOp, oldest: nat, now: int)
  {
    FrozenOver(p.job, Inputs(p)) && p.job.op == op && p.job.oldest <= oldest && p.job.now <= now
  }

  /** Two jobs in flight share no table, and two with one target lie side by side. */
  ghost predicate Compatible(p: Picked, q: Picked)
  {
    && (forall t :: t in Inputs(p) ==> t !in Inputs(q))
    && (p.target == q.target ==> Beside(Inputs(p), Inputs(q)))
  }

  ghost predicate JobsOk(levels: Tree, jobs: seq<Picked>, op: MergeOp, oldest: nat, now: int)
  {
    forall i :: 0 <= i < |jobs| ==> InPlace(levels, jobs[i]) && Frozen(jobs[i], op, oldest, now)
  }

  ghost predicate PairsOk(jobs: seq<Picked>)
  {
    forall i, j :: 0 <= i < |jobs| && 0 <= j < |jobs| && i != j ==> Compatible(jobs[i], jobs[j])
  }

  ghost predicate PendingOk(db: Db, op: MergeOp)
  {
    JobsOk(db.levels, db.pending, op, db.oldest, db.now) && PairsOk(db.pending)
  }

  ghost predicate Inv(db: Db, op: MergeOp)
  {
    && TablesOk(db.levels) && TreeOrdered(db.levels) && MemsOrdered(db)
    && Logged(db) && PendingOk(db, op)
  }

  /** Every job in flight is clean at `k`. */
  ghost predicate CleanJobs(jobs: seq<Picked>, k: Key)
  {
    forall p :: p in jobs ==> CleanKey(p.job, Inputs(p), k)
  }

  // ---- events ------------------------------------------------------------------------

  datatype Event =
    | Commit(batch: Mem)
    | Rotate
    | Flush(table: Option<Table>)
    | Pick(job: Picked)
    | Finish(slot: nat, outputs: seq<Table>)
    | Fail(slot: nat)
    | Excise(doomed: seq<Table>)
    | Advance(oldest: nat, now: int)

  /** A batch is newer than everything committed to the keys it touches. */
  ghost predicate MayCommit(db: Db, batch: Mem)
  {
    Distinct(InMemory(batch)) && NewerSource(InMemory(batch), InMemory(db.log))
  }

  /** The oldest sealed memtable becomes the newest L0 table, or nothing when empty. */
  ghost predicate MayFlush(db: Db, table: Option<Table>)
  {
    && db.imms != []
    && match table
       case None => forall k: Key :: Says(InMemory(db.imms[0]), k) == map[]
       case Some(t) =>
         && Stamped(t) && Distinct(OnDisk(t)) && (forall u :: InTree(db.levels, u) ==> u.id != t.id)
         && forall k: Key :: Says(OnDisk(t), k) == Says(InMemory(db.imms[0]), k)
  }

  predicate Overlaps(t: Table, lo: Key, hi: Key)
  {
    SpanMin(t) <= hi && lo <= SpanMax(t)
  }

  /** `gather_target`: the tables of a level that meet `[lo, hi]`. */
  function Overlapping(level: seq<Table>, lo: Key, hi: Key): (r: seq<Table>)
    ensures forall t :: t in r <==> t in level && Overlaps(t, lo, hi)
  {
    if level == [] then []
    else (if Overlaps(level[0], lo, hi) then [level[0]] else []) + Overlapping(level[1..], lo, hi)
  }

  /** The oldest `take` tables of L0, oldest first. */
  function OldestWindow(l0: seq<Table>, take: nat): seq<Table>
  {
    Reversed(l0[if take < |l0| then |l0| - take else 0..])
  }

  /** The shapes `build_job` and `build_table_job` give a job. */
  ghost predicate Shaped(levels: Tree, p: Picked)
  {
    && (if p.level == 0 then
          && levels != [] && levels[0] != [] && p.target == 1
          && exists take: nat :: take > 0 && p.source == OldestWindow(levels[0], take)
        else
          && p.level < |levels|
              && (p.target == p.level + 1 || (p.target == p.level && TargetIsBottom(levels, p.target)))
          && |p.source| == 1 && p.source[0] in levels[p.level])
    && p.gathered == if p.target == p.level then [] else
         Overlapping(LevelAt(levels, p.target), JobMin(p.source), JobMax(p.source))
  }

  /** The key range a job locks: the hull of its inputs' first and last keys. */
  predicate LocksConflict(a: seq<Table>, b: seq<Table>)
  {
    a != [] && b != [] && LockMin(a) <= LockMax(b) && LockMin(b) <= LockMax(a)
  }

  function LockMin(ts: seq<Table>): (r: Key)
    requires ts != []
    ensures forall t :: t in ts ==> r <= t.minKey
  {
    if |ts| == 1 then ts[0].minKey
    else
      var rest := LockMin(ts[1..]);
      if ts[0].minKey < rest then ts[0].minKey else rest
  }

  function LockMax(ts: seq<Table>): (r: Key)
    requires ts != []
    ensures forall t :: t in ts ==> t.maxKey <= r
  {
    if |ts| == 1 then ts[0].maxKey
    else
      var rest := LockMax(ts[1..]);
      if ts[0].maxKey > rest then ts[0].maxKey else rest
  }

  /** The locked range ends at inputs' keys. */
  lemma {:induction false} LocksAttained(ts: seq<Table>)
    requires ts != []
    ensures exists i :: 0 <= i < |ts| && LockMin(ts) == ts[i].minKey
    ensures exists i :: 0 <= i < |ts| && LockMax(ts) == ts[i].maxKey
  {
    if |ts| == 1 {
      assert LockMin(ts) == ts[0].minKey && LockMax(ts) == ts[0].maxKey;
    } else {
      LocksAttained(ts[1..]);
      var i :| 0 <= i < |ts[1..]| && LockMin(ts[1..]) == ts[1..][i].minKey;
      var j :| 0 <= j < |ts[1..]| && LockMax(ts[1..]) == ts[1..][j].maxKey;
      assert LockMin(ts) == ts[0].minKey || LockMin(ts) == ts[i + 1].minKey;
      assert LockMax(ts) == ts[0].maxKey || LockMax(ts) == ts[j + 1].maxKey;
    }
  }

  ghost predicate MayPick(db: Db, op: MergeOp, p: Picked)
  {
    && Shaped(db.levels, p)
    && (forall i :: 0 <= i < |db.pending| ==> !LocksConflict(Inputs(p), Inputs(db.pending[i])))
    && p.job.bottom == TargetIsBottom(db.levels, p.target)
    && p.job.oldest == db.oldest && p.job.now == db.now && p.job.op == op
    && FrozenOver(p.job, Inputs(p))
  }

  /** New tables get ids no table has. */
  ghost predicate FreshlyNamed(levels: Tree, outputs: seq<Table>)
  {
    && (forall o, u :: o in outputs && InTree(levels, u) ==> o.id != u.id)
    && (forall o, u :: o in outputs && u in outputs && o.id == u.id ==> o == u)
  }

  ghost predicate MayFinish(db: Db, slot: nat, outputs: seq<Table>)
  {
    && slot < |db.pending|
    && JobResult(db.pending[slot].job, Inputs(db.pending[slot]), outputs) && LevelOk(outputs)
    && FreshlyNamed(db.levels, outputs)
  }

  /** Every key of a doomed table is covered by a settled range delete newer than the
      table, in a table that stays. */
  ghost predicate Covered(levels: Tree, oldest: nat, t: Table, k: Key)
  {
    exists u: Table, c: nat :: InTree(levels, u) && c in CoversOf(u.frags, k) && t.maxSeq < c <= oldest
  }

  ghost predicate Excisable(levels: Tree, oldest: nat, doomed: seq<Table>)
  {
    forall t :: t in doomed ==>
      InTree(levels, t) && !HasRanges(t) && forall k: Key :: t.minKey <= k <= t.maxKey ==> Covered(levels, oldest, t, k)
  }

  ghost predicate MayExcise(db: Db, doomed: seq<Table>)
  {
    && Excisable(db.levels, db.oldest, doomed)
    && (forall i :: 0 <= i < |db.pending| ==> !LocksConflict(doomed, Inputs(db.pending[i])))
  }

  ghost predicate Enabled(db: Db, op: MergeOp, e: Event)
  {
    match e
    case Commit(batch) => MayCommit(db, batch)
    case Rotate => true
    case Flush(table) => MayFlush(db, table)
    case Pick(p) => MayPick(db, op, p)
    case Finish(slot, outputs) => MayFinish(db, slot, outputs)
    case Fail(slot) => slot < |db.pending|
    case Excise(doomed) => MayExcise(db, doomed)
    case Advance(oldest, now) => oldest >= db.oldest && now >= db.now
  }

  const EMPTY := Mem([], [])

  function Landed(levels: Tree, t: Table): Tree
  {
    if levels == [] then [[t]] else [[t] + levels[0]] + levels[1..]
  }

  function InstallTree(levels: Tree, target: nat, inputs: seq<Table>, outputs: seq<Table>): (r: Tree)
    ensures Installed(levels, r, target, inputs, outputs)
  {
    seq(if |levels| < target + 1 then target + 1 else |levels|,
        i requires i >= 0 => InstalledLevel(levels, i, target, Ids(inputs), outputs))
  }

  function Drop(jobs: seq<Picked>, slot: nat): seq<Picked>
    requires slot < |jobs|
  {
    jobs[..slot] + jobs[slot + 1..]
  }

  function Next(db: Db, e: Event): Db
  {
    match e
    case Commit(batch) =>
      db.(mem := Mem(batch.points + db.mem.points, batch.spans + db.mem.spans),
          log := Mem(batch.points + db.log.points, batch.spans + db.log.spans))
    case Rotate => db.(mem := EMPTY, imms := db.imms + [db.mem])
    case Flush(table) =>
      if db.imms == [] then db
      else if table.None? then db.(imms := db.imms[1..])
      else db.(imms := db.imms[1..], levels := Landed(db.levels, table.value))
    case Pick(p) => db.(pending := db.pending + [p])
    case Finish(slot, outputs) =>
      if slot >= |db.pending| then db
      else
        var p := db.pending[slot];
        db.(levels := InstallTree(db.levels, p.target, Inputs(p), outputs),
            pending := Drop(db.pending, slot))
    case Fail(slot) =>
      if slot >= |db.pending| then db else db.(pending := Drop(db.pending, slot))
    case Excise(doomed) => db.(levels := DropIds(db.levels, Ids(doomed)))
    case Advance(oldest, now) => db.(oldest := oldest, now := now)
  }

  function Start(now: int): Db
  {
    Db(EMPTY, [], [[]], [], 0, now, EMPTY)
  }

  /** A run: a list of events, each enabled where it happens. */
  ghost predicate Runs(db: Db, op: MergeOp, events: seq<Event>)
    decreases |events|
  {
    events == [] || (Enabled(db, op, events[0]) && Runs(Next(db, events[0]), op, events[1..]))
  }

  /** Every job the run picks is clean at `k`. */
  ghost predicate CleanRun(events: seq<Event>, k: Key)
  {
    forall e :: e in events && e.Pick? ==> CleanKey(e.job.job, Inputs(e.job), k)
  }

  function After(db: Db, events: seq<Event>): Db
    decreases |events|
  {
    if events == [] then db else After(Next(db, events[0]), events[1..])
  }
}
