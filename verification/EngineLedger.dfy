/** What a run leaves behind, as a tally of its events: the log, the sealed memtables, the
    jobs in flight and the watermarks. */
module EngineLedger {
  import opened Semantics
  import opened Sources
  import opened Engine
  import opened EngineTheorem

  /** Everything the run commits, the newest batch first. */
  function Committed(events: seq<Event>): Mem
  {
    if events == [] then EMPTY
    else
      var e, before := events[|events| - 1], Committed(events[..|events| - 1]);
      if e.Commit? then Mem(e.batch.points + before.points, e.batch.spans + before.spans) else before
  }

  datatype Kind = Rotations | Flushes | Picks | Finishes | Failures

  predicate Is(e: Event, kind: Kind)
  {
    match kind
    case Rotations => e.Rotate?
    case Flushes => e.Flush?
    case Picks => e.Pick?
    case Finishes => e.Finish?
    case Failures => e.Fail?
  }

  function Tally(events: seq<Event>, kind: Kind): nat
  {
    if events == [] then 0 else Tally(events[..|events| - 1], kind) + if Is(events[|events| - 1], kind) then 1 else 0
  }

  /** The watermark the last `Advance` set. */
  function LastOldest(events: seq<Event>, start: nat): nat
  {
    if events == [] then start
    else if events[|events| - 1].Advance? then events[|events| - 1].oldest
    else LastOldest(events[..|events| - 1], start)
  }

  function LastNow(events: seq<Event>, start: int): int
  {
    if events == [] then start
    else if events[|events| - 1].Advance? then events[|events| - 1].now
    else LastNow(events[..|events| - 1], start)
  }

  lemma {:induction false} AfterSnoc(db: Db, op: MergeOp, events: seq<Event>)
    requires events != [] && Runs(db, op, events)
    ensures var init, e := events[..|events| - 1], events[|events| - 1];
            Runs(db, op, init) && Enabled(After(db, init), op, e) && After(db, events) == Next(After(db, init), e)
    decreases |events|
  {
    hide Enabled, Next;
    var init, e := events[..|events| - 1], events[|events| - 1];
    if |events| == 1 {
      assert events[1..] == [] && init == [];
    } else {
      AfterSnoc(Next(db, events[0]), op, events[1..]);
      assert events[1..][..|events| - 2] == init[1..] && events[1..][|events| - 2] == e;
    }
  }

  /** The log is what the run committed, in order, and nothing else. */
  lemma {:induction false} LogIsCommitted(op: MergeOp, start: int, events: seq<Event>)
    requires Runs(Start(start), op, events)
    ensures After(Start(start), events).log == Committed(events)
    decreases |events|
  {
    if events == [] {
    } else {
      AfterSnoc(Start(start), op, events);
      LogIsCommitted(op, start, events[..|events| - 1]);
    }
  }

  /** Every memtable that was sealed was flushed or is still sealed. */
  lemma {:induction false} MemtablesConserved(op: MergeOp, start: int, events: seq<Event>)
    requires Runs(Start(start), op, events)
    ensures |After(Start(start), events).imms| + Tally(events, Flushes) == Tally(events, Rotations)
    decreases |events|
  {
    if events == [] {
    } else {
      AfterSnoc(Start(start), op, events);
      MemtablesConserved(op, start, events[..|events| - 1]);
    }
  }

  /** Every job that was picked was finished, failed or is still in flight. */
  lemma {:induction false} JobsConserved(op: MergeOp, start: int, events: seq<Event>)
    requires Runs(Start(start), op, events)
    ensures |After(Start(start), events).pending| + Tally(events, Finishes) + Tally(events, Failures) ==
              Tally(events, Picks)
    decreases |events|
  {
    if events == [] {
    } else {
      AfterSnoc(Start(start), op, events);
      JobsConserved(op, start, events[..|events| - 1]);
    }
  }

  /** The watermarks are the last ones set. */
  lemma {:induction false} WatermarksSet(op: MergeOp, start: int, events: seq<Event>)
    requires Runs(Start(start), op, events)
    ensures After(Start(start), events).oldest == LastOldest(events, 0)
    ensures After(Start(start), events).now == LastNow(events, start)
    decreases |events|
  {
    if events == [] {
    } else {
      AfterSnoc(Start(start), op, events);
      WatermarksSet(op, start, events[..|events| - 1]);
    }
  }

  /** After any run whose jobs are clean at `k`, every read of `k` at or above the oldest
      snapshot answers from what the run committed. */
  lemma {:induction false} ReadsAreTheCommits(op: MergeOp, start: int, events: seq<Event>, k: Key, now: int, s: nat)
    requires Associative(op) && Runs(Start(start), op, events) && CleanRun(events, k)
    requires now >= LastNow(events, start) && s >= LastOldest(events, 0)
    ensures Read(Reader(op, k, now), DbHistory(After(Start(start), events), k), s)
         == Read(Reader(op, k, now), Says(InMemory(Committed(events)), k), s)
  {
    hide Read, DbHistory, Runs, After, CleanRun, Associative, Says;
    WatermarksSet(op, start, events);
    LogIsCommitted(op, start, events);
    ReadsAreTheLog(op, start, events, k, now, s);
  }
}
