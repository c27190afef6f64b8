/**
 What a compaction job does to the merged version stream: range-delete masking,
 the keep/drop rule of `VersionRetention`, and folding of operand suffixes.
 */
module Rewrite {
  import opened Semantics

  /** The decisions a job freezes before it merges anything. `mask(k)` is the newest
      input range delete at or below `oldest` that covers `k`. */
  datatype Job = Job(bottom: bool, oldest: nat, now: int, op: MergeOp, folding: bool, mask: Key -> Option<nat>)

  /** The fields `VersionRetention` updates per version. */
  datatype Retained = Retained(lastKey: Option<Key>, emitted: bool, liveOperands: bool)

  const FRESH := Retained(None, false, false)

  /** The keep/drop rule as a function of the state before the version. */
  function Decision(job: Job, before: Retained, v: Version): (bool, Retained)
  {
    var c := if before.lastKey == Some(v.key) then before else Retained(Some(v.key), false, false);
    var settled := v.seqno <= job.oldest;
    if settled && c.emitted then
      (false, c)
    else
      var d := if settled && !v.entry.Operand? then c.(emitted := true) else c;
      if settled && v.entry.Tombstone? && job.bottom && !c.liveOperands then
        (false, d)
      else if job.bottom && v.entry.Put? && Expired(v.entry.ttl, job.now) then
        (false, d)
      else
        (true, d.(liveOperands := v.entry.Operand?))
  }

  class VersionRetention {
    const job: Job
    var lastKey: Option<Key>
    var emittedAtOrBelowSnapshot: bool
    var liveOperands: bool

    function State(): Retained
      reads this
    {
      Retained(lastKey, emittedAtOrBelowSnapshot, liveOperands)
    }

    constructor (job: Job)
      ensures this.job == job && State() == FRESH
    {
      this.job := job;
      lastKey, emittedAtOrBelowSnapshot, liveOperands := None, false, false;
    }

    /** A user filter is offered exactly the kept, settled, unexpired puts. */
    method Decide(v: Version) returns (keep: bool, filterEligible: bool)
      modifies this
      ensures (keep, State()) == Decision(job, old(State()), v)
      ensures filterEligible <==> keep && v.entry.Put? && v.seqno <= job.oldest && !Expired(v.entry.ttl, job.now)
    {
      var merge := v.entry.Operand?;
      if lastKey != Some(v.key) {
        lastKey := Some(v.key);
        emittedAtOrBelowSnapshot := false;
        liveOperands := false;
      }
      if v.seqno <= job.oldest && emittedAtOrBelowSnapshot {
        return false, false;
      }
      if v.seqno <= job.oldest && !merge {
        emittedAtOrBelowSnapshot := true;
        if v.entry.Tombstone? && job.bottom && !liveOperands {
          return false, false;
        }
      }
      if job.bottom && v.entry.Put? && v.entry.ttl != 0 && v.entry.ttl <= job.now {
        return false, false;
      }
      liveOperands := merge;
      return true, !merge && !v.entry.Tombstone? && v.seqno <= job.oldest
          && (v.entry.ttl == 0 || v.entry.ttl > job.now);
    }
  }

  // ---- one step of the merge loop ----------------------------------------------

  /** The operand suffix collected for one key, newest first. */
  datatype PendingFold = PendingFold(key: Key, operands: seq<Version>)

  datatype LoopState = LoopState(retained: Retained, pending: Option<PendingFold>)

  const START := LoopState(FRESH, None)

  /** `None` is an operator error, which fails the job. */
  type Emitted = Option<seq<Version>>

  function Values(operands: seq<Version>): (vs: seq<Value>)
    ensures |vs| == |operands|
  {
    if operands == [] then []
    else [if operands[0].entry.Tombstone? then [] else operands[0].entry.value] + Values(operands[1..])
  }

  function EmitFold(job: Job, p: PendingFold, base: Option<Value>): Emitted
  {
    if p.operands == [] then Some([])
    else
      var folded := (job.op)(p.key, base, Reversed(Values(p.operands)));
      if folded.None? then None
      else Some([Version(p.key, p.operands[0].seqno, Put(folded.value, 0))])
  }

  function FlushPending(job: Job, pending: Option<PendingFold>): Emitted
  {
    if pending.None? then Some([])
    else if job.bottom then EmitFold(job, pending.value, None)
    else Some(pending.value.operands)
  }

  datatype Stepped = Failed | Stepped(out: seq<Version>, next: LoopState)

  function Masked(job: Job, v: Version): bool
  {
    var m := job.mask(v.key);
    m.Some? && v.seqno < m.value
  }

  /** A kept version meets the operand suffix pending for its key. */
  function StepKept(job: Job, v: Version, pending: Option<PendingFold>, retained: Retained): Stepped
  {
    var foldable := job.folding && v.seqno <= job.oldest;
    if foldable && v.entry.Operand? then
      var p := if pending.Some? then pending.value else PendingFold(v.key, []);
      Stepped([], LoopState(retained, Some(p.(operands := p.operands + [v]))))
    else if pending.None? then
      Stepped([v], LoopState(retained, None))
    else if foldable && (v.entry.Tombstone? || v.entry.ttl == 0) then
      var folded := EmitFold(job, pending.value, if v.entry.Tombstone? then None else Some(v.entry.value));
      if folded.None? then Failed else Stepped(folded.value, LoopState(retained, None))
    else
      Stepped(pending.value.operands + [v], LoopState(retained, None))
  }

  function Step(job: Job, s: LoopState, v: Version): Stepped
  {
    var crossed := s.pending.Some? && s.pending.value.key != v.key;
    var flushed := if crossed then FlushPending(job, s.pending) else Some([]);
    if flushed.None? then Failed
    else
      var pending := if crossed then None else s.pending;
      if Masked(job, v) then Stepped(flushed.value, LoopState(s.retained, pending))
      else
        var (keep, retained) := Decision(job, s.retained, v);
        if !keep then Stepped(flushed.value, LoopState(retained, pending))
        else
          var kept := StepKept(job, v, pending, retained);
          if kept.Failed? then Failed else Stepped(flushed.value + kept.out, kept.next)
  }

  /** The whole loop over a merged, deduplicated stream. */
  function Run(job: Job, s: LoopState, stream: seq<Version>): Emitted
    decreases |stream|
  {
    if stream == [] then FlushPending(job, s.pending)
    else
      var step := Step(job, s, stream[0]);
      if step.Failed? then None
      else
        var rest := Run(job, step.next, stream[1..]);
        if rest.None? then None else Some(step.out + rest.value)
  }

  // ---- version lists of one key --------------------------------------------------

  function Stack(vs: seq<Version>, below: Chain): Chain
  {
    if vs == [] then below else Above(vs[0].entry, Stack(vs[1..], below))
  }

  /** Versions of `k`, newest first. */
  ghost predicate OneKey(vs: seq<Version>, k: Key)
  {
    && (forall i :: 0 <= i < |vs| ==> vs[i].key == k)
    && (forall i, j :: 0 <= i < j < |vs| ==> vs[i].seqno > vs[j].seqno)
  }

  lemma {:induction false} OneKeyBelow(vs: seq<Version>, k: Key, n: nat)
    requires OneKey(vs, k)
    requires n in PointsOf(vs, k)
    ensures n <= vs[0].seqno
  {
    var i := PointsWitness(vs, k, n);
  }

  /** `a`'s oldest version is newer than `b`'s newest. */
  predicate Newer(a: seq<Version>, b: seq<Version>)
  {
    a != [] && b != [] ==> a[|a| - 1].seqno > b[0].seqno
  }

  lemma OneKeyConcat(a: seq<Version>, b: seq<Version>, k: Key)
    requires OneKey(a, k) && OneKey(b, k) && Newer(a, b)
    ensures OneKey(a + b, k)
  {
  }

  lemma {:induction false} StackConcat(a: seq<Version>, b: seq<Version>, below: Chain)
    ensures Stack(a + b, below) == Stack(a, Stack(b, below))
  {
    if a == [] {
      assert a + b == b;
    } else {
      assert (a + b)[1..] == a[1..] + b;
      StackConcat(a[1..], b, below);
    }
  }

  /** Every version is an operand. */
  ghost predicate AllOperands(vs: seq<Version>)
  {
    forall i :: 0 <= i < |vs| ==> vs[i].entry.Operand?
  }

  lemma {:induction false} StackOperands(vs: seq<Version>, below: Chain)
    requires AllOperands(vs)
    ensures Stack(vs, below) == Push(Values(vs), below)
  {
    if vs == [] {
      assert Values(vs) + below.operands == below.operands;
    } else {
      StackOperands(vs[1..], below);
      assert Stack(vs, below).operands == Values(vs) + below.operands;
    }
  }

  lemma {:induction false} ValuesConcat(a: seq<Version>, b: seq<Version>)
    ensures Values(a + b) == Values(a) + Values(b)
  {
    if a == [] {
      assert a + b == b;
    } else {
      assert (a + b)[1..] == a[1..] + b;
      ValuesConcat(a[1..], b);
    }
  }

  /** A newest-first list is the walk of any history that holds exactly it in `(lo, hi]`. */
  lemma {:induction false} WalkStack(h: History, vs: seq<Version>, k: Key, lo: int, hi: int)
    requires -1 <= lo <= hi
    requires OneKey(vs, k)
    requires forall i :: 0 <= i < |vs| ==> lo < vs[i].seqno <= hi
    requires SameBetween(h, PointsOf(vs, k), lo, hi)
    ensures Walk(h, hi) == Stack(vs, Walk(h, lo))
  {
    if vs == [] {
      WalkSkip(h, lo, hi);
    } else {
      var n: int, p := vs[0].seqno, PointsOf(vs, k);
      var q := PointsOf(vs[1..], k);
      assert n in p;
      forall m | m in q ensures m < n {
        OneKeyBelow(vs[1..], k, m);
      }
      WalkSkip(h, n, hi);
      WalkStack(h, vs[1..], k, lo, n - 1);
    }
  }
}
