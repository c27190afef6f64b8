/** What the memtable protocol promises over whole runs: no inserted batch is lost, no sealed
    memtable is forgotten, and when flush jobs queue in seal order. */
module RotationRuns {
  import opened Semantics
  import opened Rotation

  // ---- batches ------------------------------------------------------------------------------------

  /** The batches a move puts into a memtable. */
  function Inserts(s: State, i: nat, m: Move): seq<Batch>
    requires Can(s, i, m)
  {
    if m.Insert? then [s.pcs[i].batch] else []
  }

  /** All batches a run inserts, in order. */
  function Inserted(s: State, run: seq<Ply>): seq<Batch>
    requires Plays(s, run)
    decreases |run|
  {
    if run == [] then []
    else Inserts(s, run[0].thread, run[0].move) + Inserted(Do(s, run[0].thread, run[0].move), run[1..])
  }

  /** Memtables and WALs only grow, at the end. */
  lemma MoveGrows(s: State, i: nat, m: Move, g: nat)
    requires Can(s, i, m)
    ensures Held(s.f.contents, g) <= Held(Do(s, i, m).f.contents, g)
    ensures Held(s.f.logs, g) <= Held(Do(s, i, m).f.logs, g)
  {
    hide Can, Do;
    OnlyInsertFills(s, i, m);
    OnlyAppendLogs(s, i, m);
  }

  lemma OnlyInsertFills(s: State, i: nat, m: Move)
    requires Can(s, i, m)
    ensures if m.Insert? then
              i < |s.pcs| && s.pcs[i].Appended? &&
              Do(s, i, m).f.contents ==
                  s.f.contents[s.pcs[i].mem := Held(s.f.contents, s.pcs[i].mem) + [s.pcs[i].batch]]
            else Do(s, i, m).f.contents == s.f.contents
  {
  }

  lemma OnlyAppendLogs(s: State, i: nat, m: Move)
    requires Can(s, i, m)
    ensures if (m.Append? && s.pcs[i].wal.Some?) || m == Fail(true) then
              i < |s.pcs| && s.pcs[i].Captured? && s.pcs[i].wal.Some? &&
              Do(s, i, m).f.logs ==
              s.f.logs[s.pcs[i].wal.value := Held(s.f.logs, s.pcs[i].wal.value) + [s.pcs[i].batch]]
            else Do(s, i, m).f.logs == s.f.logs
  {
    hide Held;
  }

  /** An insert puts the thread's batch into the active memtable, and nothing else anywhere. */
  lemma InsertLands(s: State, i: nat, m: Move, g: nat)
    requires Paired(s) && Can(s, i, m)
    ensures Held(Do(s, i, m).f.contents, g) == Held(s.f.contents, g) + if g == s.f.mem then Inserts(s, i, m) else []
  {
    hide Can, Do;
    OnlyInsertFills(s, i, m);
  }

  ghost predicate Placed(f: Family, b: Batch)
  {
    exists g: nat :: In(f.contents, g, b)
  }

  lemma MovePlaces(s: State, i: nat, m: Move, b: Batch)
    requires Paired(s) && Can(s, i, m)
    ensures Placed(Do(s, i, m).f, b) <==> Placed(s.f, b) || b in Inserts(s, i, m)
  {
    var f := Do(s, i, m).f;
    forall g: nat ensures In(f.contents, g, b) <==> In(s.f.contents, g, b) || (g == s.f.mem && b in Inserts(s, i, m)) {
      InsertLands(s, i, m, g);
    }
    assert b in Inserts(s, i, m) ==> In(f.contents, s.f.mem, b);
  }

  /** At the end of a run a memtable holds exactly what was held before and what was inserted. */
  lemma {:induction false} RunPlaces(s: State, run: seq<Ply>, b: Batch)
    requires Inv(s) && Plays(s, run)
    ensures Placed(Played(s, run).f, b) <==> Placed(s.f, b) || b in Inserted(s, run)
    decreases |run|
  {
    hide Inv, Can, Do, Placed;
    if run == [] {
    } else {
      var i, m := run[0].thread, run[0].move;
      MoveKeeps(s, i, m);
      assert Paired(s) by { InvPaired(s); }
      MovePlaces(s, i, m, b);
      RunPlaces(Do(s, i, m), run[1..], b);
    }
  }

  lemma InvPaired(s: State)
    requires Inv(s)
    ensures Paired(s)
  {
  }

  /** Every batch that any thread inserted in any run is in exactly one memtable and in its
      WAL, that memtable is active, sealed or published, and memtables hold no other batch. */
  lemma NothingLost(n: nat, run: seq<Ply>, b: Batch) returns (g: nat)
    requires Plays(Opened0(n), run)
    ensures var f := Played(Opened0(n), run).f;
            && (b in Inserted(Opened0(n), run) <==> Placed(f, b))
            && (b in Inserted(Opened0(n), run) ==>
                  && In(f.contents, g, b) && In(f.logs, g, b) && (forall h: nat :: In(f.contents, h, b) ==> h == g)
                  && (g == f.mem || g in f.imm || g in f.l0))
  {
    hide Plays, Played, Inserted;
    var s := Played(Opened0(n), run);
    StartsRight(n);
    Protocol(n, run);
    RunPlaces(Opened0(n), run, b);
    g := 0;
    if Placed(s.f, b) {
      g :| In(s.f.contents, g, b);
      OnePlace(s, g, b);
    }
  }

  /** No sealed or published memtable is empty, and none that is about to be sealed. */
  ghost predicate Filled(s: State)
  {
    && (forall g :: g in s.f.imm || g in s.f.l0 ==> Held(s.f.contents, g) != [])
    && (forall i :: 0 <= i < |s.pcs| && (s.pcs[i].Preparing? || s.pcs[i].Draining?) ==>
        Held(s.f.contents, s.f.mem) != [])
  }

  lemma SealedAfter(s: State, i: nat, m: Move, g: nat)
    requires Can(s, i, m) && (g in Do(s, i, m).f.imm || g in Do(s, i, m).f.l0)
    ensures g in s.f.imm || g in s.f.l0 || (m.Swap? && g == s.f.mem) || (m.Publish? && g == s.pcs[i].gen)
  {
    if m.Publish? { WithoutWithin(s.f.imm, s.pcs[i].gen, g); }
  }

  lemma {:induction false} WithoutWithin(q: seq<nat>, g: nat, h: nat)
    ensures h in Without(q, g) ==> h in q
  {
    if q == [] || q[0] == g {
    } else {
      WithoutWithin(q[1..], g, h);
    }
  }

  lemma RotatorAfter(s: State, i: nat, m: Move, j: nat)
    requires Can(s, i, m) && j < |s.pcs|
    requires Do(s, i, m).pcs[j].Preparing? || Do(s, i, m).pcs[j].Draining?
    ensures s.pcs[j].Preparing? || (m.Begin? && Held(s.f.contents, s.f.mem) != []) || (s.pcs[j].Draining? && j != i)
    ensures m.Swap? ==> j != i
  {
  }

  /** A rotation seals only what holds something. */
  lemma FilledKept(s: State, i: nat, m: Move)
    requires Counters(s) && Flushers(s) && Filled(s) && Can(s, i, m)
    ensures Filled(Do(s, i, m))
  {
    hide Can, Do, Counters, Flushers;
    var t := Do(s, i, m);
    forall g | g in t.f.imm || g in t.f.l0 ensures Held(t.f.contents, g) != [] {
      MoveGrows(s, i, m, g);
      SealedAfter(s, i, m, g);
      if m.Swap? { SwapDrains(s, i); }
      if m.Publish? { PublishHolds(s, i); }
    }
    forall j | 0 <= j < |t.pcs| && (t.pcs[j].Preparing? || t.pcs[j].Draining?)
      ensures Held(t.f.contents, t.f.mem) != []
    {
      QueueAfter(s, i, m);
      RotatorAfter(s, i, m, j);
      MoveGrows(s, i, m, s.f.mem);
      if m.Swap? {
        SwapDrains(s, i);
        OneRotator(s, i, j);
        assert false;
      }
      SameActive(s, i, m);
    }
  }

  lemma SwapDrains(s: State, i: nat)
    requires Can(s, i, Swap)
    ensures i < |s.pcs| && s.pcs[i].Draining?
  {
  }

  lemma PublishHolds(s: State, i: nat)
    requires Flushers(s) && Can(s, i, Publish)
    ensures s.pcs[i].gen in s.f.imm
  {
    assert HoldsGen(s.pcs[i], s.pcs[i].gen);
  }

  lemma SameActive(s: State, i: nat, m: Move)
    requires Can(s, i, m) && !m.Swap?
    ensures Do(s, i, m).f.mem == s.f.mem
  {
  }

  /** While one thread drains, no other prepares or drains. */
  lemma OneRotator(s: State, i: nat, j: nat)
    requires Counters(s) && i < |s.pcs| && j < |s.pcs| && i != j && s.pcs[i].Draining?
    ensures !s.pcs[j].Preparing? && !s.pcs[j].Draining?
  {
    CountHas(s.pcs, i, Drainer);
    if s.pcs[j].Preparing? { CountHas(s.pcs, j, Opener); }
    if s.pcs[j].Draining? { CountTwo(s.pcs, if i < j then i else j, if i < j then j else i, Drainer); }
  }

  lemma {:induction false} RunFilled(s: State, run: seq<Ply>)
    requires Inv(s) && Filled(s) && Plays(s, run)
    ensures Filled(Played(s, run))
    decreases |run|
  {
    hide Filled, Can, Do;
    if run == [] {
    } else {
      MoveKeeps(s, run[0].thread, run[0].move);
      FilledKept(s, run[0].thread, run[0].move);
      RunFilled(Do(s, run[0].thread, run[0].move), run[1..]);
    }
  }

  /** After every run, no memtable that was sealed is empty. */
  lemma {:induction false} NothingEmptySealed(n: nat, run: seq<Ply>)
    requires Plays(Opened0(n), run)
    ensures Filled(Played(Opened0(n), run))
  {
    StartsRight(n);
    RunFilled(Opened0(n), run);
  }

  /** While a rotation drains, writers only leave. */
  lemma DrainShrinks(s: State, i: nat, m: Move)
    requires s.f.rotating && Can(s, i, m)
    ensures Do(s, i, m).f.writers <= s.f.writers
  {
  }

  // ---- WALs that did not open -----------------------------------------------------------------------

  /** Records are written only to WALs that opened. */
  ghost predicate OnOpened(s: State, fit: set<nat>)
  {
    && (s.f.wal.Some? ==> s.f.wal.value in fit)
    && (forall i :: 0 <= i < |s.pcs| && s.pcs[i].Captured? && s.pcs[i].wal.Some? ==> s.pcs[i].wal.value in fit)
    && (forall i :: 0 <= i < |s.pcs| && s.pcs[i].Draining? && s.pcs[i].ready ==> s.pcs[i].gen in fit)
    && (forall g: nat :: Held(s.f.logs, g) != [] ==> g in fit)
  }

  /** The generation a move opens a WAL for. */
  function Opens(s: State, i: nat, m: Move): set<nat>
    requires Can(s, i, m)
  {
    if m == Opened(true) then {s.pcs[i].gen} else {}
  }

  lemma LogsOnOpened(s: State, i: nat, m: Move, fit: set<nat>, g: nat)
    requires OnOpened(s, fit) && Can(s, i, m) && Held(Do(s, i, m).f.logs, g) != []
    ensures g in fit
  {
    hide Do;
    OnlyAppendLogs(s, i, m);
  }

  lemma ThreadsOnOpened(s: State, i: nat, m: Move, fit: set<nat>)
    requires OnOpened(s, fit) && Can(s, i, m)
    ensures var t, all := Do(s, i, m), fit + Opens(s, i, m);
            && (t.f.wal.Some? ==> t.f.wal.value in all)
            && (t.pcs[i].Captured? && t.pcs[i].wal.Some? ==> t.pcs[i].wal.value in all)
            && (t.pcs[i].Draining? && t.pcs[i].ready ==> t.pcs[i].gen in all)
  {
  }

  lemma OpenedKept(s: State, i: nat, m: Move, fit: set<nat>)
    requires OnOpened(s, fit) && Can(s, i, m)
    ensures OnOpened(Do(s, i, m), fit + Opens(s, i, m))
  {
    hide Do, Opens;
    ThreadsOnOpened(s, i, m, fit);
    QueueAfter(s, i, m);
    forall j: nat | j < |s.pcs| && j != i ensures Do(s, i, m).pcs[j] == s.pcs[j] { Untouched(s, i, m, j); }
    forall g: nat | Held(Do(s, i, m).f.logs, g) != [] ensures g in fit { LogsOnOpened(s, i, m, fit, g); }
  }

  /** The generations whose WAL a run opened. */
  function AllOpened(s: State, run: seq<Ply>): set<nat>
    requires Plays(s, run)
    decreases |run|
  {
    if run == [] then {}
    else Opens(s, run[0].thread, run[0].move) + AllOpened(Do(s, run[0].thread, run[0].move), run[1..])
  }

  lemma {:induction false} RunOnOpened(s: State, run: seq<Ply>, fit: set<nat>)
    requires Plays(s, run) && OnOpened(s, fit)
    ensures OnOpened(Played(s, run), fit + AllOpened(s, run))
    decreases |run|
  {
    hide OnOpened, Can, Do, Opens;
    if run == [] {
      assert fit + {} == fit;
    } else {
      var i, m := run[0].thread, run[0].move;
      OpenedKept(s, i, m, fit);
      RunOnOpened(Do(s, i, m), run[1..], fit + Opens(s, i, m));
      assert fit + Opens(s, i, m) + AllOpened(Do(s, i, m), run[1..]) == fit + AllOpened(s, run);
    }
  }

  /** After every run, only WALs that opened hold records: the first one, and those whose
      opening succeeded. */
  lemma {:induction false} OnlyOpenedWritten(n: nat, run: seq<Ply>, g: nat)
    requires Plays(Opened0(n), run) && Held(Played(Opened0(n), run).f.logs, g) != []
    ensures g == 0 || g in AllOpened(Opened0(n), run)
  {
    hide Plays, Played, AllOpened;
    RunOnOpened(Opened0(n), run, {0});
  }

  // ---- sealed memtables ---------------------------------------------------------------------------

  /** Every sealed memtable is queued or in some thread's hands. */
  ghost predicate Due(s: State)
  {
    forall g :: g in s.f.imm ==> g in s.f.queue || exists i :: 0 <= i < |s.pcs| && HoldsGen(s.pcs[i], g)
  }

  /** The moves that drop a flush: a closed queue, a retiring family, a failed flush. */
  predicate Drops(s: State, m: Move)
  {
    m == Send(false) || (m.Claim? && s.f.retiring) || m.GiveUp?
  }

  lemma OthersHold(s: State, i: nat, m: Move, j: nat, g: nat)
    requires Can(s, i, m) && j < |s.pcs| && j != i && HoldsGen(s.pcs[j], g)
    ensures HoldsGen(Do(s, i, m).pcs[j], g)
  {
  }

  lemma MoverHolds(s: State, i: nat, m: Move, g: nat)
    requires SealOrder(s.f) && Flushers(s) && Can(s, i, m) && !Drops(s, m)
    requires g in Do(s, i, m).f.imm && (HoldsGen(s.pcs[i], g) || g in s.f.queue || g !in s.f.imm)
    ensures HoldsGen(Do(s, i, m).pcs[i], g) || g in Do(s, i, m).f.queue
  {
    if m.Publish? {
      GensDiffer(s.f);
      assert HoldsGen(s.pcs[i], s.pcs[i].gen);
    }
  }

  /** Unless a flush is dropped, every sealed memtable stays on its way to L0. */
  lemma DueKept(s: State, i: nat, m: Move)
    requires SealOrder(s.f) && Flushers(s) && Due(s) && Can(s, i, m) && !Drops(s, m)
    ensures Due(Do(s, i, m))
  {
    hide Can, Do, HoldsGen, Flushers, SealOrder;
    var t := Do(s, i, m);
    forall g | g in t.f.imm ensures g in t.f.queue || exists j :: 0 <= j < |t.pcs| && HoldsGen(t.pcs[j], g) {
      SameThreads(s, i, m);
      if g in s.f.imm && g !in s.f.queue && !HoldsGen(s.pcs[i], g) {
        var j :| 0 <= j < |s.pcs| && HoldsGen(s.pcs[j], g);
        OthersHold(s, i, m, j, g);
      } else {
        MoverHolds(s, i, m, g);
      }
    }
  }

  lemma SameThreads(s: State, i: nat, m: Move)
    requires Can(s, i, m)
    ensures i < |s.pcs| == |Do(s, i, m).pcs|
  {
  }

  // ---- the order of the queue ---------------------------------------------------------------------

  /** Sealed, and not yet sent to the flush queue. */
  ghost predicate Unsent(s: State, g: nat)
  {
    exists i :: 0 <= i < |s.pcs| && s.pcs[i] == Sealed(g)
  }

  predicate Taken(pc: Pc, g: nat)
  {
    (pc.Queued? || pc.Claimed? || pc.Turned?) && pc.gen == g
  }

  /** Flush jobs are sent, queued and taken in seal order. */
  ghost predicate InSealOrder(s: State)
  {
    && (forall a, b :: 0 <= a < b < |s.f.queue| ==> s.f.queue[a] < s.f.queue[b])
    && (forall i, g: nat, h: nat :: 0 <= i < |s.pcs| && Taken(s.pcs[i], g) && h in s.f.queue ==> g < h)
    && (forall g: nat, h: nat :: Unsent(s, g) && h in s.f.queue ==> h < g)
    && (forall i, g: nat, h: nat :: 0 <= i < |s.pcs| && Taken(s.pcs[i], g) && Unsent(s, h) ==> g < h)
  }

  /** An older memtable is sealed and not yet sent. */
  ghost predicate Overtakes(s: State, i: nat)
    requires i < |s.pcs| && s.pcs[i].Sealed?
  {
    exists h: nat :: Unsent(s, h) && h < s.pcs[i].gen
  }

  /** Where jobs are in seal order, an older memtable's flush is under way before any newer
      one's: the turn a flush waits for is another flush's to give up. */
  lemma OlderUnderWay(s: State, i: nat, g: nat, h: nat) returns (j: nat)
    requires InSealOrder(s) && Due(s) && i < |s.pcs| && Taken(s.pcs[i], g) && h in s.f.imm && h < g
    ensures j < |s.pcs| && Taken(s.pcs[j], h)
  {
    j :| 0 <= j < |s.pcs| && HoldsGen(s.pcs[j], h);
    assert s.pcs[j] == Sealed(h) ==> Unsent(s, h);
  }

  ghost predicate Newest(s: State, h: nat)
  {
    && (forall g :: g in s.f.queue ==> g < h)
    && forall j, g: nat :: 0 <= j < |s.pcs| && Taken(s.pcs[j], g) ==> g < h
  }

  lemma Untouched(s: State, i: nat, m: Move, j: nat)
    requires Can(s, i, m) && j < |s.pcs| && j != i
    ensures |Do(s, i, m).pcs| == |s.pcs| && Do(s, i, m).pcs[j] == s.pcs[j]
  {
  }

  /** Threads that take nothing new, and seal only what is newer than all that is under way. */
  lemma OrderFrame(s: State, t: State)
    requires InSealOrder(s) && t.f.queue == s.f.queue && |t.pcs| == |s.pcs|
    requires forall j, g: nat :: 0 <= j < |t.pcs| && Taken(t.pcs[j], g) ==> Taken(s.pcs[j], g)
    requires forall h: nat :: Unsent(t, h) ==> Unsent(s, h) || Newest(s, h)
    ensures InSealOrder(t)
  {
    hide Unsent, Taken;
  }

  lemma UnsentAfter(s: State, i: nat, m: Move, h: nat)
    requires Can(s, i, m) && Unsent(Do(s, i, m), h)
    ensures Unsent(s, h) || (m.Swap? && h == s.f.mem)
  {
    hide Can, Do;
    var t := Do(s, i, m);
    var j :| 0 <= j < |t.pcs| && t.pcs[j] == Sealed(h);
    QueueAfter(s, i, m);
    if j == i {
      NewlySealed(s, i, m);
    } else {
      Untouched(s, i, m, j);
      assert s.pcs[j] == Sealed(h);
    }
  }

  lemma NewlySealed(s: State, i: nat, m: Move)
    requires Can(s, i, m) && Do(s, i, m).pcs[i].Sealed?
    ensures m.Swap? && Do(s, i, m).pcs[i].gen == s.f.mem
  {
  }

  lemma TakenAfter(s: State, i: nat, m: Move, j: nat, g: nat)
    requires Can(s, i, m) && !m.Take? && j < |s.pcs| && Taken(Do(s, i, m).pcs[j], g)
    ensures Taken(s.pcs[j], g)
  {
  }

  lemma QueueAfter(s: State, i: nat, m: Move)
    requires Can(s, i, m)
    ensures Do(s, i, m).f.queue == if m.Take? then s.f.queue[1..]
              else if m == Send(true) then s.f.queue + [s.pcs[i].gen]
                                   else s.f.queue
    ensures |Do(s, i, m).pcs| == |s.pcs|
  {
  }

  lemma QuietOrder(s: State, i: nat, m: Move)
    requires SealOrder(s.f) && Flushers(s) && InSealOrder(s) && Can(s, i, m) && !m.Take? && m != Send(true)
    ensures InSealOrder(Do(s, i, m))
  {
    hide Can, Do, InSealOrder, SealOrder, Unsent;
    var t := Do(s, i, m);
    QueueAfter(s, i, m);
    forall j, g: nat | 0 <= j < |t.pcs| && Taken(t.pcs[j], g) ensures Taken(s.pcs[j], g) { TakenAfter(s, i, m, j, g); }
    forall h | h in s.f.imm ensures h < s.f.mem { SealedOlder(s.f, h); }
    forall j, g: nat | 0 <= j < |s.pcs| && Taken(s.pcs[j], g) ensures g < s.f.mem {
      assert HoldsGen(s.pcs[j], g);
      assert g in s.f.imm;
    }
    forall h: nat | Unsent(t, h) ensures Unsent(s, h) || h == s.f.mem { UnsentAfter(s, i, m, h); }
    OrderFrame(s, t);
  }

  lemma TakeOrder(s: State, i: nat)
    requires InSealOrder(s) && Can(s, i, Take)
    ensures InSealOrder(Do(s, i, Take))
  {
    var t, q := Do(s, i, Take), s.f.queue;
    assert q[0] in q;
    forall h | h in q[1..]
      ensures h in q && q[0] < h
    {
      var a :| 0 <= a < |q[1..]| && q[1..][a] == h;
      assert q[a + 1] == h;
    }
    forall h: nat | Unsent(t, h) ensures Unsent(s, h) { UnsentAfter(s, i, Take, h); }
    forall j, g: nat | 0 <= j < |t.pcs| && Taken(t.pcs[j], g) ensures Taken(s.pcs[j], g) || g == q[0] {}
    hide Unsent, Taken;
    assert InSealOrder(t);
  }

  /** Sending keeps the order exactly when no older memtable is still to be sent. */
  lemma SendOrder(s: State, i: nat)
    requires SealOrder(s.f) && Flushers(s) && InSealOrder(s) && Can(s, i, Send(true))
    ensures InSealOrder(Do(s, i, Send(true))) <==> !Overtakes(s, i)
  {
    var t, q, gen := Do(s, i, Send(true)), s.f.queue, s.pcs[i].gen;
    assert gen in t.f.queue && Unsent(s, gen);
    if Overtakes(s, i) {
      var h: nat :| Unsent(s, h) && h < gen;
      var j :| 0 <= j < |s.pcs| && s.pcs[j] == Sealed(h);
      assert t.pcs[j] == Sealed(h) && Unsent(t, h);
    } else {
      forall h: nat | Unsent(t, h) ensures Unsent(s, h) && h > gen { StillUnsent(s, i, h); }
      forall h | h in t.f.queue ensures h in q || h == gen {}
      forall h | h in q ensures h < gen {}
      forall j, g: nat | 0 <= j < |t.pcs| && Taken(t.pcs[j], g) ensures Taken(s.pcs[j], g) && g < gen {}
      forall a, b | 0 <= a < b < |t.f.queue|
        ensures t.f.queue[a] < t.f.queue[b]
      {
        assert t.f.queue[a] == q[a] && q[a] in q;
      }
      hide Unsent, Taken;
      assert InSealOrder(t);
    }
  }

  lemma StillUnsent(s: State, i: nat, h: nat)
    requires Flushers(s) && Can(s, i, Send(true)) && Unsent(Do(s, i, Send(true)), h)
    ensures Unsent(s, h) && h != s.pcs[i].gen
  {
    var t := Do(s, i, Send(true));
    var j :| 0 <= j < |t.pcs| && t.pcs[j] == Sealed(h);
    assert s.pcs[j] == Sealed(h) && HoldsGen(s.pcs[j], h) && HoldsGen(s.pcs[i], s.pcs[i].gen);
  }

  /** Jobs stay in seal order through any move but one: sending a memtable while an older one
      is sealed and not yet sent. */
  lemma OrderExact(s: State, i: nat, m: Move)
    requires SealOrder(s.f) && Flushers(s) && InSealOrder(s) && Can(s, i, m)
    ensures InSealOrder(Do(s, i, m)) <==> !(m == Send(true) && Overtakes(s, i))
  {
    hide Can, Do, InSealOrder, SealOrder, Flushers, Overtakes;
    if m == Send(true) {
      SendOrder(s, i);
    } else if m.Take? {
      TakeOrder(s, i);
    } else {
      QuietOrder(s, i, m);
    }
  }

  lemma SealedOlder(f: Family, g: nat)
    requires SealOrder(f) && g in f.imm
    ensures g < f.mem
  {
    var n := |Reversed(f.l0)|;
    var all := Reversed(f.l0) + f.imm + [f.mem];
    var a :| 0 <= a < |f.imm| && f.imm[a] == g;
    assert all[n + a] == g && all[n + |f.imm|] == f.mem;
  }

  // ---- whole runs ---------------------------------------------------------------------------------

  /** No move of the run drops a flush. */
  predicate Undropped(s: State, run: seq<Ply>)
    requires Plays(s, run)
    decreases |run|
  {
    run == [] || (!Drops(s, run[0].move) && Undropped(Do(s, run[0].thread, run[0].move), run[1..]))
  }

  /** Whenever the run sends a memtable, every older one has been sent. */
  ghost predicate SentInOrder(s: State, run: seq<Ply>)
    requires Plays(s, run)
    decreases |run|
  {
    run == [] ||
    (!(run[0].move == Send(true) && Overtakes(s, run[0].thread)) &&
     SentInOrder(Do(s, run[0].thread, run[0].move), run[1..]))
  }

  lemma {:induction false} RunDue(s: State, run: seq<Ply>)
    requires Inv(s) && Due(s) && Plays(s, run) && Undropped(s, run)
    ensures Due(Played(s, run))
    decreases |run|
  {
    hide Due, Can, Do, Drops;
    if run == [] {
    } else {
      MoveKeeps(s, run[0].thread, run[0].move);
      DueKept(s, run[0].thread, run[0].move);
      RunDue(Do(s, run[0].thread, run[0].move), run[1..]);
    }
  }

  lemma {:induction false} RunOrdered(s: State, run: seq<Ply>)
    requires Inv(s) && InSealOrder(s) && Plays(s, run) && SentInOrder(s, run)
    ensures InSealOrder(Played(s, run))
    decreases |run|
  {
    hide InSealOrder, Can, Do, Overtakes;
    if run == [] {
    } else {
      MoveKeeps(s, run[0].thread, run[0].move);
      OrderExact(s, run[0].thread, run[0].move);
      RunOrdered(Do(s, run[0].thread, run[0].move), run[1..]);
    }
  }

  /** After every run that drops no flush, every sealed memtable is queued or in some
      thread's hands; and if it also sent them in order, a flush waits only for flushes that
      other threads have taken off the queue. */
  lemma {:induction false} NothingForgotten(n: nat, run: seq<Ply>)
    requires Plays(Opened0(n), run) && Undropped(Opened0(n), run)
    ensures Due(Played(Opened0(n), run))
    ensures SentInOrder(Opened0(n), run) ==>
              var s := Played(Opened0(n), run);
              forall i, g: nat, h :: 0 <= i < |s.pcs| && Taken(s.pcs[i], g) && h in s.f.imm && h < g ==>
                exists j :: 0 <= j < |s.pcs| && Taken(s.pcs[j], h)
  {
    StartsRight(n);
    RunDue(Opened0(n), run);
    var s := Played(Opened0(n), run);
    if SentInOrder(Opened0(n), run) {
      RunOrdered(Opened0(n), run);
      forall i, g: nat, h | 0 <= i < |s.pcs| && Taken(s.pcs[i], g) && h in s.f.imm && h < g
        ensures exists j :: 0 <= j < |s.pcs| && Taken(s.pcs[j], h)
      {
        var j := OlderUnderWay(s, i, g, h);
      }
    }
  }

  // ---- an overtaken flush -------------------------------------------------------------------------

  lemma {:induction false} Extend(s: State, run: seq<Ply>, i: nat, m: Move)
    requires Plays(s, run) && Can(Played(s, run), i, m)
    ensures Plays(s, run + [Ply(i, m)]) && Played(s, run + [Ply(i, m)]) == Do(Played(s, run), i, m)
    decreases |run|
  {
    hide Can, Do;
    if run == [] {
      assert run + [Ply(i, m)] == [Ply(i, m)] && [Ply(i, m)][1..] == [];
    } else {
      assert (run + [Ply(i, m)])[1..] == run[1..] + [Ply(i, m)];
      Extend(Do(s, run[0].thread, run[0].move), run[1..], i, m);
    }
  }

  /** A family at rest. */
  predicate Resting(s: State, i: nat)
  {
    && i < |s.pcs| && s.pcs[i].Idle? && s.f.wal == Some(s.f.mem)
    && s.f.writers == 0 && !s.f.rotating && !s.f.preparing && !s.f.retiring
  }

  /** A thread commits a batch. */
  lemma Commits(s: State, i: nat, b: Batch, run: seq<Ply>) returns (r: seq<Ply>)
    requires Plays(s, run) && Resting(Played(s, run), i) && b !in Played(s, run).f.used
    ensures Plays(s, r) && Resting(Played(s, r), i) && Played(s, r).pcs == Played(s, run).pcs
    ensures var f, f2 := Played(s, run).f, Played(s, r).f;
            && f2 == f.(contents := f2.contents, logs := f2.logs, used := f.used + {b})
            && Held(f2.contents, f.mem) != []
  {
    hide Plays, Played;
    var t := Played(s, run);
    Extend(s, run, i, Enter(b));
    Extend(s, run + [Ply(i, Enter(b))], i, Capture);
    var r2 := run + [Ply(i, Enter(b))] + [Ply(i, Capture)];
    assert Played(s, r2).pcs[i] == Captured(b, Some(t.f.mem), t.f.mem);
    Extend(s, r2, i, Append);
    Extend(s, r2 + [Ply(i, Append)], i, Insert);
    var r4 := r2 + [Ply(i, Append)] + [Ply(i, Insert)];
    assert Played(s, r4).pcs[i] == Leaving && Played(s, r4).f.writers == 1;
    Extend(s, r4, i, Leave);
    r := r4 + [Ply(i, Leave)];
    assert Played(s, r).pcs == t.pcs;
  }

  /** A thread seals the active memtable, and has yet to send it. */
  lemma Seals(s: State, i: nat, run: seq<Ply>) returns (r: seq<Ply>)
    requires Plays(s, run) && Resting(Played(s, run), i)
    requires Held(Played(s, run).f.contents, Played(s, run).f.mem) != []
    ensures Plays(s, r) && Played(s, r).pcs == Played(s, run).pcs[i := Sealed(Played(s, run).f.mem)]
    ensures var f := Played(s, run).f;
            Played(s, r).f == f.(imm := f.imm + [f.mem], mem := f.mem + 1, wal := Some(f.mem + 1))
  {
    hide Plays, Played;
    Extend(s, run, i, Begin);
    Extend(s, run + [Ply(i, Begin)], i, Opened(true));
    var r2 := run + [Ply(i, Begin)] + [Ply(i, Opened(true))];
    Extend(s, r2, i, Swap);
    r := r2 + [Ply(i, Swap)];
  }

  /** Two threads have sealed a memtable each. */
  lemma TwoSealed() returns (run: seq<Ply>)
    ensures Plays(Opened0(3), run)
    ensures var s := Played(Opened0(3), run);
            s.pcs == [Sealed(0), Sealed(1), Idle] && s.f.imm == [0, 1] && s.f.queue == [] && !s.f.retiring
  {
    hide Plays, Played;
    var s := Opened0(3);
    Nothing(s);
    assert s.pcs == [Idle, Idle, Idle];
    run := Commits(s, 0, 0, []);
    run := Seals(s, 0, run);
    assert Played(s, run).pcs == [Sealed(0), Idle, Idle];
    run := Commits(s, 1, 1, run);
    run := Seals(s, 1, run);
  }

  /** The newer one is sent, taken and claimed. */
  lemma NewerTaken(s: State, run: seq<Ply>) returns (r: seq<Ply>)
    requires Plays(s, run)
    requires var t := Played(s, run); t.pcs == [Sealed(0), Sealed(1), Idle] && t.f.queue == [] && !t.f.retiring
    ensures Plays(s, r) && Played(s, r).pcs == [Sealed(0), Idle, Claimed(1)]
    ensures Played(s, r).f == Played(s, run).f.(flushes := Played(s, run).f.flushes + 1)
  {
    hide Plays, Played;
    Extend(s, run, 1, Send(true));
    r := run + [Ply(1, Send(true))];
    assert Played(s, r).pcs == [Sealed(0), Idle, Idle] && Played(s, r).f.queue == [1];
    Extend(s, r, 2, Take);
    r := r + [Ply(2, Take)];
    assert Played(s, r).pcs == [Sealed(0), Idle, Queued(1)] && Played(s, r).f.queue == [];
    Extend(s, r, 2, Claim);
    r := r + [Ply(2, Claim)];
  }

  /** The only flusher waits for a memtable that is behind it in the queue: a newer memtable
      was sent between the sealing and the sending of an older one. */
  lemma Overtaken() returns (run: seq<Ply>)
    ensures Plays(Opened0(3), run)
    ensures var s := Played(Opened0(3), run);
            && s.pcs == [Idle, Idle, Claimed(1)] && s.f.imm == [0, 1] && s.f.queue == [0] && !s.f.retiring
            && !Can(s, 2, Turn) && !InSealOrder(s)
  {
    hide Plays, Played, Opened0;
    var s := Opened0(3);
    run := TwoSealed();
    run := NewerTaken(s, run);
    Extend(s, run, 0, Send(true));
    run := run + [Ply(0, Send(true))];
    var t := Played(s, run);
    assert t.pcs == [Idle, Idle, Claimed(1)] && t.f.queue == [0];
    assert Taken(t.pcs[2], 1) && 0 in t.f.queue;
  }

  lemma {:induction false} Nothing(s: State)
    ensures Plays(s, []) && Played(s, []) == s
  {
  }
}
