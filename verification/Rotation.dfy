/**
 The writer, rotator, flusher and retirer protocol, as steps of any number of threads.
 A memtable is named by the WAL generation it was created with.
 */
module Rotation {
  import opened Semantics

  type Batch = nat

  /** Where a thread is between two critical sections. */
  datatype Pc =
    | Idle
    | Entered(batch: Batch)
    | Captured(batch: Batch, wal: Option<nat>, mem: nat)
    | Appended(batch: Batch, mem: nat)
    | Leaving
    | Preparing(gen: nat)
    | Draining(gen: nat, ready: bool)
    | Sealed(gen: nat)
    | Queued(gen: nat)
    | Claimed(gen: nat)
    | Turned(gen: nat)
    | Releasing
    | Retiring
    | Retired

  /** The column family's shared state, and what each WAL and memtable holds. */
  datatype Family = Family(
    mem: nat, wal: Option<nat>, imm: seq<nat>, l0: seq<nat>,
    writers: nat, rotating: bool, preparing: bool, retiring: bool, flushes: nat,
    queue: seq<nat>, logs: map<nat, seq<Batch>>, contents: map<nat, seq<Batch>>, used: set<Batch>)

  datatype State = State(f: Family, pcs: seq<Pc>)

  datatype Role = Writer | Flusher | Opener | Drainer | Retirer

  predicate Is(pc: Pc, role: Role)
  {
    match role
    case Writer => pc.Entered? || pc.Captured? || pc.Appended? || pc.Leaving?
    case Flusher => pc.Claimed? || pc.Turned? || pc.Releasing?
    case Opener => pc.Preparing?
    case Drainer => pc.Draining?
    case Retirer => pc.Retiring? || pc.Retired?
  }

  function Held(m: map<nat, seq<Batch>>, g: nat): seq<Batch>
  {
    if g in m then m[g] else []
  }

  datatype Move =
    | Enter(batch: Batch) | Capture | Append | Fail(torn: bool) | Insert | Leave
    | Begin | Opened(ok: bool) | Swap | Send(ok: bool)
    | Take | Claim | Turn | GiveUp | Publish | Release
    | Mark | Return | Abort

  /** When a thread may make a move: the guards the code tests under `rot` and `state`. */
  predicate Can(s: State, i: nat, m: Move)
  {
    && i < |s.pcs|
    && var f, pc := s.f, s.pcs[i];
       match m
       case Enter(batch) => pc.Idle? && !f.rotating && batch !in f.used
       case Capture => pc.Entered?
       case Append => pc.Captured?
       case Fail(_) => pc.Captured? && pc.wal.Some?
       case Insert => pc.Appended?
       case Leave => pc.Leaving?
       case Begin => pc.Idle? && !f.rotating && !f.preparing && !f.retiring && Held(f.contents, f.mem) != []
       case Opened(_) => pc.Preparing?
       case Swap => pc.Draining? && f.writers == 0
       case Send(_) => pc.Sealed?
       case Take => pc.Idle? && f.queue != []
       case Claim => pc.Queued?
       case Turn => pc.Claimed? && !f.retiring && (f.imm == [] || pc.gen !in f.imm || f.imm[0] == pc.gen)
       case GiveUp => pc.Claimed? || pc.Turned?
       case Publish => pc.Turned?
       case Release => pc.Releasing?
       case Mark => pc.Idle? && !f.retiring
       case Return => pc.Retiring? && !f.rotating && !f.preparing && f.flushes == 0
       case Abort => pc.Retired?
  }

  function Without(s: seq<nat>, g: nat): seq<nat>
  {
    if s == [] then [] else if s[0] == g then s[1..] else [s[0]] + Without(s[1..], g)
  }

  function Set(s: State, i: nat, pc: Pc, f: Family): State
    requires i < |s.pcs|
  {
    State(f, s.pcs[i := pc])
  }

  function Do(s: State, i: nat, m: Move): State
    requires Can(s, i, m)
  {
    var f, pc := s.f, s.pcs[i];
    match m
    case Enter(batch) => Set(s, i, Entered(batch), f.(writers := f.writers + 1, used := f.used + {batch}))
    case Capture => Set(s, i, Captured(pc.batch, f.wal, f.mem), f)
    case Append =>
      if pc.wal.None? then Set(s, i, Leaving, f)
      else Set(s, i, Appended(pc.batch, pc.mem),
          f.(logs := f.logs[pc.wal.value := Held(f.logs, pc.wal.value) + [pc.batch]]))
    case Fail(torn) =>
      // A failed append leaves the memtable alone; its record may or may not be in the log.
      Set(s, i, Leaving, if torn then f.(logs := f.logs[pc.wal.value := Held(f.logs, pc.wal.value) + [pc.batch]])
          else f)
    case Insert => Set(s, i, Leaving, f.(contents := f.contents[pc.mem := Held(f.contents, pc.mem) + [pc.batch]]))
    case Leave => Set(s, i, Idle, f.(writers := if f.writers == 0 then 0 else f.writers - 1))
    case Begin => Set(s, i, Preparing(f.mem + 1), f.(preparing := true))
    case Opened(ok) =>
      if f.retiring then Set(s, i, Idle, f.(preparing := false))
      else Set(s, i, Draining(pc.gen, ok), f.(preparing := false, rotating := true))
    case Swap =>
      Set(s, i, Sealed(f.mem), f.(imm := f.imm + [f.mem], mem := pc.gen,
                                  wal := if pc.ready then Some(pc.gen) else None, rotating := false))
    case Send(ok) => Set(s, i, Idle, if ok then f.(queue := f.queue + [pc.gen]) else f)
    case Take => Set(s, i, Queued(f.queue[0]), f.(queue := f.queue[1..]))
    case Claim => if f.retiring then Set(s, i, Idle, f) else Set(s, i, Claimed(pc.gen), f.(flushes := f.flushes + 1))
    case Turn => Set(s, i, Turned(pc.gen), f)
    case GiveUp => Set(s, i, Releasing, f)
    case Publish => Set(s, i, Releasing, f.(l0 := [pc.gen] + f.l0, imm := Without(f.imm, pc.gen)))
    case Release => Set(s, i, Idle, f.(flushes := if f.flushes == 0 then 0 else f.flushes - 1))
    case Mark => Set(s, i, Retiring, f.(retiring := true))
    case Return => Set(s, i, Retired, f)
    case Abort => Set(s, i, Idle, f.(retiring := false))
  }

  // ---- counting threads -----------------------------------------------------------------------

  function Count(pcs: seq<Pc>, role: Role): nat
  {
    if pcs == [] then 0 else (if Is(pcs[0], role) then 1 else 0) + Count(pcs[1..], role)
  }

  lemma {:induction false} CountUpdate(pcs: seq<Pc>, i: nat, pc: Pc, role: Role)
    requires i < |pcs|
    ensures Count(pcs[i := pc], role) ==
            Count(pcs, role) - (if Is(pcs[i], role) then 1 else 0) + if Is(pc, role) then 1 else 0
  {
    if i > 0 {
      assert pcs[i := pc][1..] == pcs[1..][i - 1 := pc];
      CountUpdate(pcs[1..], i - 1, pc, role);
    } else {
      assert pcs[i := pc][1..] == pcs[1..];
    }
  }

  lemma {:induction false} CountHas(pcs: seq<Pc>, i: nat, role: Role)
    requires i < |pcs| && Is(pcs[i], role)
    ensures Count(pcs, role) > 0
  {
    if i == 0 {
    } else {
      CountHas(pcs[1..], i - 1, role);
    }
  }

  lemma {:induction false} CountTwo(pcs: seq<Pc>, i: nat, j: nat, role: Role)
    requires i < j < |pcs| && Is(pcs[i], role) && Is(pcs[j], role)
    ensures Count(pcs, role) >= 2
  {
    if i == 0 {
      CountHas(pcs[1..], j - 1, role);
    } else {
      CountTwo(pcs[1..], i - 1, j - 1, role);
    }
  }

  // ---- the invariant ----------------------------------------------------------------------------

  function Upto(n: nat): (r: seq<nat>)
    ensures |r| == n && forall i :: 0 <= i < n ==> r[i] == i
  {
    seq(n, i => i)
  }

  /** Published, sealed and active memtables are all generations so far, in seal order. */
  ghost predicate SealOrder(f: Family)
  {
    Reversed(f.l0) + f.imm + [f.mem] == Upto(f.mem + 1)
  }

  ghost predicate Counters(s: State)
  {
    && s.f.writers == Count(s.pcs, Writer) && s.f.flushes == Count(s.pcs, Flusher)
    && Count(s.pcs, Opener) == (if s.f.preparing then 1 else 0)
    && Count(s.pcs, Drainer) == (if s.f.rotating then 1 else 0)
    && Count(s.pcs, Retirer) == (if s.f.retiring then 1 else 0)
    && !(s.f.preparing && s.f.rotating)
  }

  /** A writer between capture and leave holds the active pair. */
  ghost predicate Paired(s: State)
  {
    && (s.f.wal.Some? ==> s.f.wal.value == s.f.mem)
    && (forall i :: 0 <= i < |s.pcs| && s.pcs[i].Captured? ==>
          s.pcs[i].mem == s.f.mem && (s.pcs[i].wal.Some? ==> s.pcs[i].wal.value == s.f.mem))
    && (forall i :: 0 <= i < |s.pcs| && s.pcs[i].Appended? ==>
          s.pcs[i].mem == s.f.mem && s.pcs[i].batch in Held(s.f.logs, s.f.mem))
    && (forall i :: 0 <= i < |s.pcs| && (s.pcs[i].Preparing? || s.pcs[i].Draining?) ==> s.pcs[i].gen == s.f.mem + 1)
  }

  predicate HoldsGen(pc: Pc, g: nat)
  {
    (pc.Sealed? || pc.Queued? || pc.Claimed? || pc.Turned?) && pc.gen == g
  }

  /** A sealed memtable is flushed by one job; whoever has its turn holds the oldest. */
  ghost predicate Flushers(s: State)
  {
    && (forall i, g :: 0 <= i < |s.pcs| && HoldsGen(s.pcs[i], g) ==> g in s.f.imm && g !in s.f.queue)
    && (forall i, j, g ::
          0 <= i < |s.pcs| && 0 <= j < |s.pcs| && HoldsGen(s.pcs[i], g) && HoldsGen(s.pcs[j], g) ==> i == j)
    && (forall g :: g in s.f.queue ==> g in s.f.imm)
    && (forall a, b :: 0 <= a < b < |s.f.queue| ==> s.f.queue[a] != s.f.queue[b])
    && (forall i :: 0 <= i < |s.pcs| && s.pcs[i].Turned? ==> s.f.imm != [] && s.f.imm[0] == s.pcs[i].gen)
  }

  predicate HoldsBatch(pc: Pc, b: Batch)
  {
    (pc.Entered? || pc.Captured? || pc.Appended?) && pc.batch == b
  }

  predicate In(m: map<nat, seq<Batch>>, g: nat, b: Batch)
  {
    b in Held(m, g)
  }

  /** A batch in a memtable is in that memtable's WAL, and in no other memtable. */
  ghost predicate Batches(s: State)
  {
    && (forall g: nat, b: Batch :: In(s.f.contents, g, b) ==> g <= s.f.mem && b in s.f.used && In(s.f.logs, g, b))
    && (forall g: nat, h: nat, b: Batch :: In(s.f.contents, g, b) && In(s.f.contents, h, b) ==> g == h)
    && (forall i, b: Batch :: 0 <= i < |s.pcs| && HoldsBatch(s.pcs[i], b) ==> b in s.f.used && Unplaced(s.f, b))
    && (forall i, j, b: Batch ::
          0 <= i < |s.pcs| && 0 <= j < |s.pcs| && HoldsBatch(s.pcs[i], b) && HoldsBatch(s.pcs[j], b) ==> i == j)
  }

  /** The batch has reached no memtable yet. */
  ghost predicate Unplaced(f: Family, b: Batch)
  {
    forall g: nat :: !In(f.contents, g, b)
  }

  /** From the return of `begin_retire` on, nothing rotates and no flush is claimed. */
  ghost predicate Quiet(s: State)
  {
    forall i :: 0 <= i < |s.pcs| && s.pcs[i].Retired? ==>
        s.f.retiring && !s.f.rotating && !s.f.preparing && s.f.flushes == 0
  }

  ghost predicate Inv(s: State)
  {
    SealOrder(s.f) && Counters(s) && Paired(s) && Flushers(s) && Batches(s) && Quiet(s)
  }

  // ---- every move keeps it ------------------------------------------------------------------------

  /** How a move changes one role's head count. */
  lemma {:induction false} Recount(s: State, i: nat, m: Move, role: Role)
    requires Can(s, i, m)
    ensures Count(Do(s, i, m).pcs, role) ==
            Count(s.pcs, role) - (if Is(s.pcs[i], role) then 1 else 0) + if Is(Do(s, i, m).pcs[i], role) then 1 else 0
    ensures Is(s.pcs[i], role) ==> Count(s.pcs, role) > 0
  {
    CountUpdate(s.pcs, i, Do(s, i, m).pcs[i], role);
    if Is(s.pcs[i], role) { CountHas(s.pcs, i, role); }
  }

  lemma CountersKept(s: State, i: nat, m: Move)
    requires Counters(s) && Can(s, i, m)
    ensures Counters(Do(s, i, m))
  {
    hide Count;
    Recount(s, i, m, Writer);
    Recount(s, i, m, Flusher);
    Recount(s, i, m, Opener);
    Recount(s, i, m, Drainer);
    Recount(s, i, m, Retirer);
  }

  lemma SwapOrder(old0: seq<nat>, imm: seq<nat>, mem: nat)
    requires old0 + imm + [mem] == Upto(mem + 1)
    ensures old0 + (imm + [mem]) + [mem + 1] == Upto(mem + 2)
  {
    var all := old0 + (imm + [mem]) + [mem + 1];
    assert |old0 + imm + [mem]| == mem + 1;
    forall i | 0 <= i < mem + 1 ensures all[i] == i { assert all[i] == (old0 + imm + [mem])[i]; }
    assert all == Upto(mem + 2);
  }

  lemma {:induction false} PublishOrder(l0: seq<nat>, imm: seq<nat>, mem: nat)
    requires imm != []
    ensures Reversed([imm[0]] + l0) + imm[1..] + [mem] == Reversed(l0) + imm + [mem]
  {
    assert ([imm[0]] + l0)[1..] == l0 && imm == [imm[0]] + imm[1..];
    assert (Reversed(l0) + [imm[0]]) + imm[1..] == Reversed(l0) + imm;
  }

  lemma SealOrderKept(s: State, i: nat, m: Move)
    requires SealOrder(s.f) && Paired(s) && Flushers(s) && Can(s, i, m)
    ensures SealOrder(Do(s, i, m).f)
  {
    hide Reversed, Held;
    if m.Swap? {
      SwapOrder(Reversed(s.f.l0), s.f.imm, s.f.mem);
      assert s.pcs[i].gen == s.f.mem + 1;
    } else if m.Publish? {
      PublishOrder(s.f.l0, s.f.imm, s.f.mem);
      assert Without(s.f.imm, s.pcs[i].gen) == s.f.imm[1..];
    }
  }

  /** With no writer inside, no thread holds a captured pair. */
  lemma NoWriters(s: State, j: nat)
    requires Counters(s) && s.f.writers == 0 && j < |s.pcs|
    ensures !Is(s.pcs[j], Writer)
  {
    if Is(s.pcs[j], Writer) { CountHas(s.pcs, j, Writer); }
  }

  /** At most one thread is sealing. */
  lemma OneSealer(s: State, i: nat, j: nat)
    requires Counters(s) && i < |s.pcs| && j < |s.pcs| && i != j && s.pcs[i].Draining?
    ensures !s.pcs[j].Preparing? && !s.pcs[j].Draining?
  {
    CountHas(s.pcs, i, Drainer);
    if s.pcs[j].Preparing? { CountHas(s.pcs, j, Opener); }
    if s.pcs[j].Draining? { CountTwo(s.pcs, if i < j then i else j, if i < j then j else i, Drainer); }
  }

  lemma PairedKept(s: State, i: nat, m: Move)
    requires Counters(s) && Paired(s) && Can(s, i, m)
    ensures Paired(Do(s, i, m))
  {
    hide Count;
    if m.Swap? {
      forall j | 0 <= j < |s.pcs| && j != i
        ensures !s.pcs[j].Captured? && !s.pcs[j].Appended? && !s.pcs[j].Preparing? && !s.pcs[j].Draining?
      {
        NoWriters(s, j);
        OneSealer(s, i, j);
      }
    }
  }

  /** Generations do not repeat. */
  lemma GensDiffer(f: Family)
    requires SealOrder(f)
    ensures f.mem !in f.imm && forall a, b :: 0 <= a < b < |f.imm| ==> f.imm[a] != f.imm[b]
  {
    var all, n := Reversed(f.l0) + f.imm + [f.mem], |Reversed(f.l0)|;
    forall a | 0 <= a < |f.imm| ensures f.imm[a] == n + a && f.mem == n + |f.imm| {
      assert all[n + a] == f.imm[a] && all[n + |f.imm|] == f.mem;
    }
  }

  lemma FlushersSwap(s: State, i: nat)
    requires SealOrder(s.f) && Flushers(s) && Can(s, i, Swap)
    ensures Flushers(Do(s, i, Swap))
  {
    GensDiffer(s.f);
  }

  lemma FlushersPublish(s: State, i: nat)
    requires SealOrder(s.f) && Flushers(s) && Can(s, i, Publish)
    ensures Flushers(Do(s, i, Publish))
  {
    GensDiffer(s.f);
    var gen, imm := s.pcs[i].gen, s.f.imm;
    assert HoldsGen(s.pcs[i], gen) && Without(imm, gen) == imm[1..];
    forall g | g in imm && g != gen ensures g in imm[1..] {
      var a :| 0 <= a < |imm| && imm[a] == g;
      assert imm[1..][a - 1] == g;
    }
    forall j | 0 <= j < |s.pcs| && j != i ensures !s.pcs[j].Turned? {
      if s.pcs[j].Turned? { assert HoldsGen(s.pcs[j], s.pcs[j].gen); }
    }
  }

  lemma FlushersSend(s: State, i: nat)
    requires Flushers(s) && Can(s, i, Send(true))
    ensures Flushers(Do(s, i, Send(true)))
  {
    var q, gen := s.f.queue, s.pcs[i].gen;
    assert HoldsGen(s.pcs[i], gen);
    assert forall g :: g in q + [gen] <==> g in q || g == gen;
    forall a, b | 0 <= a < b < |q + [gen]| ensures (q + [gen])[a] != (q + [gen])[b] { assert b == |q| ==> q[a] in q; }
    assert forall j :: 0 <= j < |s.pcs| && j != i ==> !HoldsGen(s.pcs[j], gen);
  }

  lemma FlushersTake(s: State, i: nat)
    requires Flushers(s) && Can(s, i, Take)
    ensures Flushers(Do(s, i, Take))
  {
    var q := s.f.queue;
    assert q[0] in q && forall g :: g in q[1..] ==> g in q;
    forall g | g in q[1..] ensures g != q[0] { var a :| 0 <= a < |q[1..]| && q[1..][a] == g; assert q[a + 1] == g; }
    assert forall j, g :: 0 <= j < |s.pcs| && HoldsGen(s.pcs[j], g) ==> g != q[0];
  }

  /** A thread that keeps at most the generation it held disturbs no flusher. */
  lemma FlushersFrame(s: State, i: nat, pc: Pc, f: Family)
    requires Flushers(s) && i < |s.pcs| && f.imm == s.f.imm && f.queue == s.f.queue
    requires (forall g :: HoldsGen(pc, g) ==> HoldsGen(s.pcs[i], g))
    requires (pc.Turned? ==> f.imm != [] && f.imm[0] == pc.gen)
    ensures Flushers(Set(s, i, pc, f))
  {
  }

  lemma FlushersKept(s: State, i: nat, m: Move)
    requires SealOrder(s.f) && Flushers(s) && Can(s, i, m)
    ensures Flushers(Do(s, i, m))
  {
    if m.Swap? {
      FlushersSwap(s, i);
    } else if m.Publish? {
      FlushersPublish(s, i);
    } else if m == Send(true) {
      FlushersSend(s, i);
    } else if m.Take? {
      FlushersTake(s, i);
    } else {
      if m.Turn? {
        assert HoldsGen(s.pcs[i], s.pcs[i].gen);
        assert s.pcs[i].gen in s.f.imm;
      }
      FlushersFrame(s, i, Do(s, i, m).pcs[i], Do(s, i, m).f);
    }
  }

  /** A thread that keeps at most the batch it held, with logs that only grow. */
  lemma BatchesFrame(s: State, i: nat, pc: Pc, f: Family)
    requires Batches(s) && i < |s.pcs| && f.mem >= s.f.mem && f.contents == s.f.contents && f.used == s.f.used
    requires forall b: Batch :: HoldsBatch(pc, b) ==> HoldsBatch(s.pcs[i], b)
    requires forall g: nat, b: Batch :: In(s.f.logs, g, b) ==> In(f.logs, g, b)
    ensures Batches(Set(s, i, pc, f))
  {
  }

  lemma BatchesEnter(s: State, i: nat, batch: Batch)
    requires Batches(s) && Can(s, i, Enter(batch))
    ensures Batches(Do(s, i, Enter(batch)))
  {
    assert Unplaced(s.f, batch);
    assert forall j :: 0 <= j < |s.pcs| ==> !HoldsBatch(s.pcs[j], batch);
  }

  /** Placing a thread's batch in the memtable whose WAL has it. */
  lemma BatchesPlace(s: State, i: nat, f: Family, g0: nat, b0: Batch)
    requires Batches(s) && i < |s.pcs| && HoldsBatch(s.pcs[i], b0) && g0 <= f.mem && In(s.f.logs, g0, b0)
    requires f.mem == s.f.mem && f.used == s.f.used && f.logs == s.f.logs
    requires forall g: nat, b: Batch :: In(f.contents, g, b) <==> In(s.f.contents, g, b) || (g == g0 && b == b0)
    ensures Batches(Set(s, i, Leaving, f))
  {
    assert Unplaced(s.f, b0);
    forall j, b: Batch | 0 <= j < |s.pcs| && j != i && HoldsBatch(s.pcs[j], b) ensures b != b0 && Unplaced(f, b) {
      assert Unplaced(s.f, b);
    }
  }

  lemma BatchesInsert(s: State, i: nat)
    requires Paired(s) && Batches(s) && Can(s, i, Insert)
    ensures Batches(Do(s, i, Insert))
  {
    var pc, f := s.pcs[i], Do(s, i, Insert).f;
    forall g: nat, b: Batch
      ensures In(f.contents, g, b) <==> In(s.f.contents, g, b) || (g == pc.mem && b == pc.batch)
    {
    }
    assert In(s.f.logs, pc.mem, pc.batch);
    BatchesPlace(s, i, f, pc.mem, pc.batch);
  }

  lemma LogsGrow(s: State, i: nat, m: Move)
    requires Can(s, i, m)
    ensures forall g: nat, b: Batch :: In(s.f.logs, g, b) ==> In(Do(s, i, m).f.logs, g, b)
  {
  }

  lemma BatchesKept(s: State, i: nat, m: Move)
    requires Paired(s) && Batches(s) && Can(s, i, m)
    ensures Batches(Do(s, i, m))
  {
    if m.Insert? {
      BatchesInsert(s, i);
    } else if m.Enter? {
      BatchesEnter(s, i, m.batch);
    } else {
      LogsGrow(s, i, m);
      BatchesFrame(s, i, Do(s, i, m).pcs[i], Do(s, i, m).f);
    }
  }

  lemma QuietKept(s: State, i: nat, m: Move)
    requires Counters(s) && Quiet(s) && Can(s, i, m)
    ensures Quiet(Do(s, i, m))
  {
    if Is(s.pcs[i], Retirer) { CountHas(s.pcs, i, Retirer); }
    forall j | 0 <= j < |s.pcs| && j != i && s.pcs[j].Retired?
      ensures Do(s, i, m).f.retiring && !Do(s, i, m).f.rotating && !Do(s, i, m).f.preparing
      ensures Do(s, i, m).f.flushes == 0
    {
      CountHas(s.pcs, j, Retirer);
      if s.pcs[i].Preparing? { CountHas(s.pcs, i, Opener); }
      if s.pcs[i].Draining? { CountHas(s.pcs, i, Drainer); }
      if Is(s.pcs[i], Retirer) { CountTwo(s.pcs, if i < j then i else j, if i < j then j else i, Retirer); }
    }
  }

  /** Any move of any thread keeps the protocol's invariant. */
  lemma MoveKeeps(s: State, i: nat, m: Move)
    requires Inv(s) && Can(s, i, m)
    ensures Inv(Do(s, i, m))
  {
    SealOrderKept(s, i, m);
    CountersKept(s, i, m);
    PairedKept(s, i, m);
    FlushersKept(s, i, m);
    BatchesKept(s, i, m);
    QuietKept(s, i, m);
  }

  // ---- runs -----------------------------------------------------------------------------------

  datatype Ply = Ply(thread: nat, move: Move)

  predicate Plays(s: State, run: seq<Ply>)
    decreases |run|
  {
    run == [] || (Can(s, run[0].thread, run[0].move) && Plays(Do(s, run[0].thread, run[0].move), run[1..]))
  }

  function Played(s: State, run: seq<Ply>): State
    requires Plays(s, run)
    decreases |run|
  {
    if run == [] then s else Played(Do(s, run[0].thread, run[0].move), run[1..])
  }

  /** A freshly opened family and `n` idle threads. */
  function Opened0(n: nat): State
  {
    State(Family(0, Some(0), [], [], 0, false, false, false, 0, [], map[], map[], {}), seq(n, _ => Idle))
  }

  lemma {:induction false} CountIdle(pcs: seq<Pc>, role: Role)
    requires forall i :: 0 <= i < |pcs| ==> pcs[i].Idle?
    ensures Count(pcs, role) == 0
  {
    if pcs == [] {
    } else {
      CountIdle(pcs[1..], role);
    }
  }

  lemma StartsRight(n: nat)
    ensures Inv(Opened0(n))
  {
    hide Count;
    var s := Opened0(n);
    CountIdle(s.pcs, Writer);
    CountIdle(s.pcs, Flusher);
    CountIdle(s.pcs, Opener);
    CountIdle(s.pcs, Drainer);
    CountIdle(s.pcs, Retirer);
    assert Upto(1) == [0];
  }

  lemma {:induction false} PlayKeeps(s: State, run: seq<Ply>)
    requires Inv(s) && Plays(s, run)
    ensures Inv(Played(s, run))
    decreases |run|
  {
    if run == [] {
    } else {
      MoveKeeps(s, run[0].thread, run[0].move);
      PlayKeeps(Do(s, run[0].thread, run[0].move), run[1..]);
    }
  }

  /** Every interleaving of any number of threads keeps the protocol's promises. */
  lemma {:induction false} Protocol(n: nat, run: seq<Ply>)
    requires Plays(Opened0(n), run)
    ensures Inv(Played(Opened0(n), run))
  {
    StartsRight(n);
    PlayKeeps(Opened0(n), run);
  }

  /** A committed batch is in exactly one memtable, and that memtable is in exactly one
      place: active, sealed or published. */
  lemma OnePlace(s: State, g: nat, b: Batch)
    requires Inv(s) && In(s.f.contents, g, b)
    ensures forall h: nat :: In(s.f.contents, h, b) ==> h == g
    ensures (g == s.f.mem && g !in s.f.imm && g !in s.f.l0) || (g != s.f.mem && g in s.f.imm && g !in s.f.l0)
              || (g != s.f.mem && g !in s.f.imm && g in s.f.l0)
  {
    var f, old0 := s.f, Reversed(s.f.l0);
    var all := old0 + f.imm + [f.mem];
    assert all[g] == g;
    GensDiffer(f);
    forall x ensures x in old0 <==> x in f.l0 { ReversedIn(f.l0, x); }
    forall a | 0 <= a < |old0| ensures old0[a] == a { assert all[a] == old0[a]; }
    forall a | 0 <= a < |f.imm| ensures f.imm[a] == |old0| + a { assert all[|old0| + a] == f.imm[a]; }
    assert f.mem == |old0| + |f.imm| by { assert all[|old0| + |f.imm|] == f.mem; }
    if g < |old0| { assert old0[g] in old0; } else if g < f.mem { assert f.imm[g - |old0|] in f.imm; }
  }

  lemma SealedIsNotActive(f: Family, g: nat)
    requires SealOrder(f) && (g in f.imm || g in f.l0)
    ensures g != f.mem
  {
    GensDiffer(f);
    if g in f.l0 {
      var old0 := Reversed(f.l0);
      var all := old0 + f.imm + [f.mem];
      ReversedIn(f.l0, g);
      var a :| 0 <= a < |old0| && old0[a] == g;
      assert all[a] == g && all[|all| - 1] == f.mem;
    }
  }

  /** Nothing enters a memtable once it is sealed. */
  lemma SealedFrozen(s: State, i: nat, m: Move, g: nat)
    requires SealOrder(s.f) && Paired(s) && Can(s, i, m) && (g in s.f.imm || g in s.f.l0)
    ensures Held(Do(s, i, m).f.contents, g) == Held(s.f.contents, g)
  {
    SealedIsNotActive(s.f, g);
  }

  /** While a retire has returned and not been aborted, no thread rotates or flushes. */
  lemma RetiredIsQuiet(s: State, i: nat, j: nat)
    requires Inv(s) && i < |s.pcs| && j < |s.pcs| && s.pcs[i].Retired?
    ensures !Is(s.pcs[j], Opener) && !Is(s.pcs[j], Drainer) && !Is(s.pcs[j], Flusher)
  {
    if Is(s.pcs[j], Opener) { CountHas(s.pcs, j, Opener); }
    if Is(s.pcs[j], Drainer) { CountHas(s.pcs, j, Drainer); }
    if Is(s.pcs[j], Flusher) { CountHas(s.pcs, j, Flusher); }
  }
}
