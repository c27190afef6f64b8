/** Without range deletes, every read after every run is the log's, whatever the layout. */
module RangeFree {
  import opened Semantics
  import opened Fragments
  import opened Tables
  import opened Levels
  import opened Sources
  import opened Engine
  import opened EngineSteps
  import opened EngineFinish
  import opened EngineTheorem
  import opened Lookup
  import opened DbRead

  ghost predicate RangeFree(db: Db)
  {
    && (forall m :: m == db.mem || m in db.imms ==> m.spans == [])
    && (forall t :: InTree(db.levels, t) ==> !HasRanges(t))
  }

  /** The run deletes no range. */
  ghost predicate PointRun(events: seq<Event>)
  {
    forall e :: e in events && e.Commit? ==> e.batch.spans == []
  }

  /** Finitely many versions leave some key of an interval alone. */
  lemma {:induction false} FreeKey(vs: seq<Version>, a: Key, b: Key) returns (k: Key)
    requires a < b
    ensures a <= k < b && PointsOf(vs, k) == map[]
    decreases |vs|
  {
    if vs == [] {
      k := a;
    } else {
      var x := vs[0].key;
      if a < x < b {
        k := FreeKey(vs[1..], a, x);
      } else {
        var m := (a + b) / 2.0;
        k := FreeKey(vs[1..], m, b);
      }
    }
  }

  /** A table that says what a memtable without range deletes says has none either. */
  lemma FlushedFree(m: Mem, t: Table)
    requires m.spans == [] && WellFormed(t)
    requires forall k: Key :: Says(OnDisk(t), k) == Says(InMemory(m), k)
    ensures !HasRanges(t)
  {
    if HasRanges(t) {
      var f := t.frags[0];
      var k := FreeKey(m.points, f.start, f.end);
      FragmentSays(t, k);
    }
  }

  lemma FragmentSays(t: Table, k: Key)
    requires WellFormed(t) && HasRanges(t) && t.frags[0].start <= k < t.frags[0].end
    ensures Says(OnDisk(t), k) != map[]
  {
    CoversAt(t.frags, 0, k);
    assert t.frags[0].seqs[0] in Says(OnDisk(t), k);
  }

  lemma {:induction false} NoCovers(ts: seq<Table>, k: Key)
    requires forall t :: t in ts ==> !HasRanges(t)
    ensures AllCovers(ts, k) == {}
  {
    if ts == [] {
    } else {
      assert ts[0] in ts;
      NoCovers(ts[1..], k);
    }
  }

  /** A job over tables without range deletes writes none. */
  lemma OutputFree(db: Db, slot: nat, op: MergeOp, outputs: seq<Table>, o: Table)
    requires Inv(db, op) && RangeFree(db) && MayFinish(db, slot, outputs) && o in outputs
    ensures !HasRanges(o)
  {
    hide TreeOrdered, MemsOrdered, Logged;
    var p := db.pending[slot];
    assert InPlace(db.levels, p);
    forall y | y in Inputs(p) ensures !HasRanges(y) { InputLive(db.levels, p, y); }
    if HasRanges(o) {
      var k := o.frags[0].start;
      NoCovers(Inputs(p), k);
      CoversAt(o.frags, 0, k);
      CoversHas(outputs, o, k, o.frags[0].seqs[0]);
    }
  }

  lemma StepFree(db: Db, op: MergeOp, e: Event)
    requires Inv(db, op) && RangeFree(db) && Enabled(db, op, e) && PointRun([e])
    ensures RangeFree(Next(db, e))
  {
    match e
    case Commit(batch) => assert e in [e];
    case Flush(table) =>
      if table.Some? {
        FlushedFree(db.imms[0], table.value);
        forall u ensures InTree(Landed(db.levels, table.value), u) <==> u == table.value || InTree(db.levels, u) {
          LandedMembers(db.levels, table.value, u);
        }
      }
    case Finish(slot, outputs) =>
      var p := db.pending[slot];
      assert InPlace(db.levels, p);
      forall t | InTree(Next(db, e).levels, t) ensures !HasRanges(t) {
        DoneInTree(db.levels, p, outputs, t);
        if t in outputs { OutputFree(db, slot, op, outputs, t); }
      }
    case Excise(doomed) =>
      forall t | InTree(Next(db, e).levels, t) ensures !HasRanges(t) { DropInTree(db.levels, doomed, t); }
    case _ =>
  }

  lemma {:induction false} RunFree(db: Db, op: MergeOp, events: seq<Event>)
    requires Inv(db, op) && RangeFree(db) && Runs(db, op, events) && PointRun(events)
    ensures RangeFree(After(db, events))
    decreases |events|
  {
    hide Inv, RangeFree, Enabled, Next;
    if events == [] {
    } else {
      StepKeeps(db, op, events[0]);
      assert events[0] in events;
      StepFree(db, op, events[0]);
      RunFree(Next(db, events[0]), op, events[1..]);
    }
  }

  lemma FreeServes(levels: Tree, k: Key)
    requires TablesOk(levels) && forall t :: InTree(levels, t) ==> !HasRanges(t)
    ensures Served(levels, k)
  {
    forall i | 1 <= i < |levels| ensures Finds(levels[i], k) {
      forall j | 0 <= j < |levels[i]| ensures !HasRanges(levels[i][j]) { assert InTree(levels, levels[i][j]); }
      RangeFreeServes(levels[i], k);
    }
  }

  /** After any run that deletes no range, a point read answers from the log. */
  method ReadAfterPointRun(op: MergeOp, start: int, events: seq<Event>, k: Key, s: nat, now: int, earlyExit: bool)
    returns (r: Outcome)
    requires Associative(op) && Runs(Start(start), op, events) && PointRun(events) && CleanRun(events, k)
    requires now >= After(Start(start), events).now && s >= After(Start(start), events).oldest
    ensures r == Read(Reader(op, k, now), LogHistory(After(Start(start), events), k), s)
  {
    hide Runs, After, CleanRun, PointRun, Read, Associative, LogHistory, Inv;
    StartHolds(op, start);
    assert RangeFree(Start(start));
    RunFree(Start(start), op, events);
    RunOrdered(op, start, events);
    FreeServes(After(Start(start), events).levels, k);
    r := ReadAfterRun(op, start, events, k, s, now, earlyExit);
  }
}
