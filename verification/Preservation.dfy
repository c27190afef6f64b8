/**
 One compaction job changes no read at or above `oldest`, for one key: first the
 part of the stream at or below `oldest`, then the whole key over any older data.
 */
module Preservation {
  import opened Semantics
  import opened Rewrite

  /** A reader a live snapshot can still be: the job's operator, a clock not behind it. */
  ghost predicate ReaderOf(r: Reader, job: Job, k: Key)
  {
    r.op == job.op && r.key == k && r.now >= job.now && Associative(job.op)
  }

  /** The loop state while versions of `k` are being read. */
  ghost predicate InKey(job: Job, s: LoopState, k: Key)
  {
    && (s.pending.Some? ==>
          && job.folding
          && s.pending.value.key == k
          && s.pending.value.operands != []
          && AllOperands(s.pending.value.operands)
          && (forall i :: 0 <= i < |s.pending.value.operands| ==> s.pending.value.operands[i].key == k)
          && s.retained.lastKey == Some(k)
          && s.retained.liveOperands)
  }

  function Suffix(s: LoopState): seq<Version>
  {
    if s.pending.None? then [] else s.pending.value.operands
  }

  function Operands(s: LoopState): seq<Value>
  {
    Values(Suffix(s))
  }

  /** Where a walk through the job's versions of `k` ends up: at the masking range
      delete if there is one, else in the data below. */
  function Floor(mask: Option<nat>, below: Chain): Chain
  {
    if mask.Some? then Chain([], Deleted) else below
  }

  function Unmasked(job: Job, vs: seq<Version>): (r: seq<Version>)
    ensures r <= vs
  {
    if vs == [] || Masked(job, vs[0]) then [] else [vs[0]] + Unmasked(job, vs[1..])
  }

  /** A step that writes nothing hands the rest of the stream to the next state. */
  lemma {:induction false} RunQuiet(job: Job, s: LoopState, vs: seq<Version>, next: LoopState)
    requires vs != [] && Step(job, s, vs[0]) == Stepped([], next)
    ensures Run(job, s, vs) == Run(job, next, vs[1..])
  {
    var rest := Run(job, next, vs[1..]);
    if rest.Some? { assert [] + rest.value == rest.value; }
  }

  /** Every version at or below `oldest` of a key whose base was already met is dropped. */
  lemma {:induction false} SettledRest(job: Job, k: Key, s: LoopState, vs: seq<Version>)
    requires OneKey(vs, k) && InKey(job, s, k)
    requires s.retained.lastKey == Some(k) && s.retained.emitted
    requires forall i :: 0 <= i < |vs| ==> vs[i].seqno <= job.oldest
    ensures Run(job, s, vs) == FlushPending(job, s.pending)
    decreases |vs|
  {
    if vs == [] {
    } else {
      RunQuiet(job, s, vs, s);
      SettledRest(job, k, s, vs[1..]);
    }
  }

  /** Below a mask everything is dropped. */
  lemma {:induction false} MaskedRest(job: Job, k: Key, s: LoopState, vs: seq<Version>)
    requires OneKey(vs, k) && InKey(job, s, k)
    requires vs != [] ==> Masked(job, vs[0])
    ensures Run(job, s, vs) == FlushPending(job, s.pending)
    decreases |vs|
  {
    if vs == [] {
    } else {
      RunQuiet(job, s, vs, s);
      MaskedRest(job, k, s, vs[1..]);
    }
  }

  /** Flushing the pending suffix keeps what it meant over the floor. */
  lemma {:induction false} FlushKeeps(job: Job, k: Key, s: LoopState, below: Chain, r: Reader, out: seq<Version>)
    requires InKey(job, s, k) && ReaderOf(r, job, k)
    requires job.bottom ==> below == Chain([], Missing)
    requires FlushPending(job, s.pending) == Some(out)
    ensures Equiv(r, Push(Operands(s), Floor(job.mask(k), below)),
                     Stack(out, Floor(if job.bottom then None else job.mask(k), below)))
  {
    var floor := Floor(job.mask(k), below);
    var kept := Floor(if job.bottom then None else job.mask(k), below);
    assert Push([], floor) == floor;
    if s.pending.None? {
      EquivBases(r, [], floor.base, kept.base);
    } else {
      var p := s.pending.value;
      if job.bottom {
        assert Push(Values(p.operands), floor) == Chain(Values(p.operands), floor.base);
        FoldEquiv(r, Values(p.operands), floor.base, out[0].entry.value);
      } else {
        StackOperands(p.operands, kept);
      }
    }
  }

  /** A run over settled versions of `k` whose base has not been met. */
  ghost predicate SettledRun(job: Job, k: Key, s: LoopState, vs: seq<Version>, below: Chain, r: Reader,
                             out: seq<Version>)
  {
    && OneKey(vs, k) && InKey(job, s, k) && ReaderOf(r, job, k)
    && (s.retained.lastKey == Some(k) ==> !s.retained.emitted)
    && (forall i :: 0 <= i < |vs| ==> vs[i].seqno <= job.oldest)
    && (job.bottom ==> below == Chain([], Missing))
    && Run(job, s, vs) == Some(out)
  }

  /** What the settled versions mean before the job ... */
  function SettledBefore(job: Job, k: Key, s: LoopState, vs: seq<Version>, below: Chain): Chain
  {
    Push(Operands(s), Stack(Unmasked(job, vs), Floor(job.mask(k), below)))
  }

  /** ... and what is written for them means after it. */
  function SettledAfter(job: Job, k: Key, out: seq<Version>, below: Chain): Chain
  {
    Stack(out, Floor(if job.bottom then None else job.mask(k), below))
  }

  /** A settled operand is always kept: held back when the job folds, else written. */
  lemma OperandStep(job: Job, k: Key, s: LoopState, v: Version)
    requires InKey(job, s, k) && v.key == k && !Masked(job, v)
    requires s.retained.lastKey == Some(k) ==> !s.retained.emitted
    requires v.entry.Operand? && v.seqno <= job.oldest
    ensures Step(job, s, v) ==
            if job.folding then Stepped([],
                LoopState(Retained(Some(k), false, true), Some(PendingFold(k, Suffix(s) + [v]))))
            else Stepped([v], LoopState(Retained(Some(k), false, true), None))
  {
    assert [] + [v] == [v];
  }

  /** The part of a key's stream at or below `oldest` reads the same after the job. */
  lemma {:induction false} SettledKeeps(job: Job, k: Key, s: LoopState, vs: seq<Version>, below: Chain, r: Reader,
                                        out: seq<Version>)
    requires SettledRun(job, k, s, vs, below, r, out)
    ensures Equiv(r, SettledBefore(job, k, s, vs, below), SettledAfter(job, k, out, below))
    decreases |vs|
  {
    if vs == [] || Masked(job, vs[0]) {
      MaskedRest(job, k, s, vs);
      FlushKeeps(job, k, s, below, r, out);
    } else if vs[0].entry.Operand? {
      OperandStep(job, k, s, vs[0]);
      var next := Step(job, s, vs[0]).next;
      if job.folding {
        RunQuiet(job, s, vs, next);
        SettledKeeps(job, k, next, vs[1..], below, r, out);
      } else {
        assert out == [vs[0]] + Run(job, next, vs[1..]).value;
        assert out[1..] == Run(job, next, vs[1..]).value;
        SettledKeeps(job, k, next, vs[1..], below, r, out[1..]);
      }
      SettledOperand(job, k, s, vs, below, r, out);
    } else {
      SettledBase(job, k, s, vs, below, r, out);
    }
  }

  /** An operand is held back for folding, or written as it is. */
  lemma SettledOperand(job: Job, k: Key, s: LoopState, vs: seq<Version>, below: Chain, r: Reader, out: seq<Version>)
    requires SettledRun(job, k, s, vs, below, r, out)
    requires vs != [] && !Masked(job, vs[0]) && vs[0].entry.Operand?
    requires var next := Step(job, s, vs[0]).next;
             if job.folding then Equiv(r, SettledBefore(job, k, next, vs[1..], below), SettledAfter(job, k, out, below))
             else
               && out != []
               && Equiv(r, SettledBefore(job, k, next, vs[1..], below), SettledAfter(job, k, out[1..], below))
    ensures Equiv(r, SettledBefore(job, k, s, vs, below), SettledAfter(job, k, out, below))
  {
    hide Step;
    var v, step := vs[0], Step(job, s, vs[0]);
    OperandStep(job, k, s, v);
    var rest := Stack(Unmasked(job, vs[1..]), Floor(job.mask(k), below));
    assert Unmasked(job, vs)[1..] == Unmasked(job, vs[1..]);
    assert SettledBefore(job, k, s, vs, below) == Push(Operands(s), Above(v.entry, rest));
    if job.folding {
      ValuesConcat(Suffix(s), [v]);
      assert Push(Operands(step.next), rest) == Push(Operands(s), Above(v.entry, rest));
    } else {
      EquivAbove(r, v.entry, Push([], rest), SettledAfter(job, k, out[1..], below));
      assert Push([], rest) == rest && Push([], Above(v.entry, rest)) == Above(v.entry, rest);
    }
  }

  lemma BaseEnds(job: Job, k: Key, s: LoopState, vs: seq<Version>, below: Chain)
    requires vs != [] && !Masked(job, vs[0]) && !vs[0].entry.Operand?
    ensures SettledBefore(job, k, s, vs, below) == Chain(Operands(s), BaseOf(vs[0].entry))
  {
    assert Stack(Unmasked(job, vs), Floor(job.mask(k), below)) == Chain([], BaseOf(vs[0].entry));
    assert Operands(s) + [] == Operands(s);
  }

  /** The base that ends the visible chain: dropped at the bottom, folded, or kept. */
  lemma {:induction false} SettledBase(job: Job, k: Key, s: LoopState, vs: seq<Version>, below: Chain, r: Reader,
                                       out: seq<Version>)
    requires SettledRun(job, k, s, vs, below, r, out)
    requires vs != [] && !Masked(job, vs[0]) && !vs[0].entry.Operand?
    ensures Equiv(r, SettledBefore(job, k, s, vs, below), SettledAfter(job, k, out, below))
  {
    BaseEnds(job, k, s, vs, below);
    if Decision(job, s.retained, vs[0]).0 {
      BaseKept(job, k, s, vs, below, r, out);
    } else {
      BaseDropped(job, k, s, vs, below, r, out);
    }
  }

  /** Dropped at the bottom: a delete over no operand, or an expired put. */
  lemma BaseDropped(job: Job, k: Key, s: LoopState, vs: seq<Version>, below: Chain, r: Reader, out: seq<Version>)
    requires SettledRun(job, k, s, vs, below, r, out)
    requires vs != [] && !Masked(job, vs[0]) && !vs[0].entry.Operand? && !Decision(job, s.retained, vs[0]).0
    ensures Equiv(r, Chain(Operands(s), BaseOf(vs[0].entry)), SettledAfter(job, k, out, below))
  {
    var next := Step(job, s, vs[0]).next;
    assert Operands(s) + [] == Operands(s);
    SettledRest(job, k, next, vs[1..]);
    RunQuiet(job, s, vs, next);
    FlushKeeps(job, k, next, below, r, out);
    EquivBases(r, Operands(s), BaseOf(vs[0].entry), Missing);
  }

  /** What a kept base writes: itself alone, itself under its suffix, or their fold. */
  function BaseWrites(job: Job, pending: Option<PendingFold>, v: Version): Emitted
  {
    if pending.None? then Some([v])
    else if v.entry.Operand? then None
    else if v.entry.Tombstone? || v.entry.ttl == 0 then
      EmitFold(job, pending.value, if v.entry.Tombstone? then None else Some(v.entry.value))
    else Some(pending.value.operands + [v])
  }

  lemma BaseStep(job: Job, k: Key, s: LoopState, v: Version)
    requires InKey(job, s, k) && v.key == k && v.seqno <= job.oldest && !Masked(job, v)
    requires !v.entry.Operand? && Decision(job, s.retained, v).0
    ensures var w := BaseWrites(job, s.pending, v);
            Step(job, s, v) == if w.None? then Failed
                else Stepped(w.value, LoopState(Retained(Some(k), true, false), None))
  {
    hide EmitFold;
    var w := BaseWrites(job, s.pending, v);
    if w.Some? { assert [] + w.value == w.value; }
  }

  /** Nothing follows a kept base. */
  lemma {:induction false} KeptBaseOut(job: Job, k: Key, s: LoopState, vs: seq<Version>, out: seq<Version>)
    requires OneKey(vs, k) && InKey(job, s, k) && (forall i :: 0 <= i < |vs| ==> vs[i].seqno <= job.oldest)
    requires Run(job, s, vs) == Some(out)
    requires vs != [] && !Masked(job, vs[0]) && !vs[0].entry.Operand? && Decision(job, s.retained, vs[0]).0
    ensures Some(out) == BaseWrites(job, s.pending, vs[0])
  {
    hide Step, Decision, Masked, BaseWrites;
    BaseStep(job, k, s, vs[0]);
    var w := BaseWrites(job, s.pending, vs[0]);
    if w.Some? {
      SettledRest(job, k, LoopState(Retained(Some(k), true, false), None), vs[1..]);
      assert w.value + [] == w.value;
    }
  }

  lemma BaseKept(job: Job, k: Key, s: LoopState, vs: seq<Version>, below: Chain, r: Reader, out: seq<Version>)
    requires SettledRun(job, k, s, vs, below, r, out)
    requires vs != [] && !Masked(job, vs[0]) && !vs[0].entry.Operand? && Decision(job, s.retained, vs[0]).0
    ensures Equiv(r, Chain(Operands(s), BaseOf(vs[0].entry)), SettledAfter(job, k, out, below))
  {
    hide Step, Run, Decision, Masked;
    var v := vs[0];
    KeptBaseOut(job, k, s, vs, out);
    assert Operands(s) + [] == Operands(s);
    if s.pending.None? {
      assert SettledAfter(job, k, out, below) == Chain(Operands(s), BaseOf(v.entry));
    } else if v.entry.Tombstone? || v.entry.ttl == 0 {
      FoldEquiv(r, Operands(s), BaseOf(v.entry), out[0].entry.value);
    } else {
      StackConcat(Suffix(s), [v], Floor(if job.bottom then None else job.mask(k), below));
      StackOperands(Suffix(s), Chain([], BaseOf(v.entry)));
    }
  }

  // ---- what the job writes for one key -------------------------------------------

  /** One unmasked version: dropped, held back, or written with the suffix it ends. */
  lemma StepCases(job: Job, k: Key, s: LoopState, v: Version, step: Stepped)
    requires InKey(job, s, k) && v.key == k && !Masked(job, v)
    requires step == Step(job, s, v) && step.Stepped?
    ensures InKey(job, step.next, k)
    ensures || (step.out == [] && Suffix(step.next) == Suffix(s))
            || (step.out == [] && Suffix(step.next) == Suffix(s) + [v])
            || (step.out == Suffix(s) + [v] && Suffix(step.next) == [])
            || (|step.out| == 1 && Suffix(s) != [] && step.out[0].key == k && step.out[0].seqno == Suffix(s)[0].seqno
                && Suffix(step.next) == [])
  {
    hide Masked;
    assert [] + step.out == step.out;
    assert [] + [v] == [v];
  }

  /** Whatever the job writes for `k` is at a sequence of an unmasked input version. */
  lemma {:induction false} RunSource(job: Job, k: Key, s: LoopState, vs: seq<Version>, out: seq<Version>, n: nat)
    requires OneKey(vs, k) && InKey(job, s, k)
    requires Run(job, s, vs) == Some(out)
    requires n in PointsOf(out, k)
    ensures n in PointsOf(Suffix(s), k) || n in PointsOf(Unmasked(job, vs), k)
    decreases |vs|
  {
    var p := Suffix(s);
    if vs == [] || Masked(job, vs[0]) {
      MaskedRest(job, k, s, vs);
    } else {
      var v, step := vs[0], Step(job, s, vs[0]);
      var rest := Run(job, step.next, vs[1..]).value;
      StepCases(job, k, s, v, step);
      PointsConcat(step.out, rest, k);
      PointsConcat(p, [v], k);
      assert Unmasked(job, vs)[1..] == Unmasked(job, vs[1..]);
      if n in PointsOf(rest, k) {
        RunSource(job, k, step.next, vs[1..], rest, n);
      }
    }
  }

  /** The job writes versions of `k` newest first. */
  lemma {:induction false} RunShape(job: Job, k: Key, s: LoopState, vs: seq<Version>, out: seq<Version>)
    requires InKey(job, s, k)
    requires OneKey(Suffix(s), k) && OneKey(vs, k) && Newer(Suffix(s), vs)
    requires Run(job, s, vs) == Some(out)
    ensures OneKey(out, k)
    decreases |vs|
  {
    if vs == [] || Masked(job, vs[0]) {
      MaskedRest(job, k, s, vs);
    } else {
      var v, step := vs[0], Step(job, s, vs[0]);
      var rest := Run(job, step.next, vs[1..]).value;
      OneKeyConcat(Suffix(s), [v], k);
      StepCases(job, k, s, v, step);
      RunShape(job, k, step.next, vs[1..], rest);
      if step.out == [] {
        assert out == rest;
      } else {
        RunShapeJoin(job, k, s, vs, step, rest);
      }
    }
  }

  lemma {:induction false} RunShapeJoin(job: Job, k: Key, s: LoopState, vs: seq<Version>, step: Stepped,
                                        rest: seq<Version>)
    requires vs != [] && OneKey(vs, k) && !Masked(job, vs[0])
    requires InKey(job, s, k) && OneKey(Suffix(s) + [vs[0]], k) && OneKey(rest, k)
    requires step == Step(job, s, vs[0]) && step.Stepped? && step.out != []
    requires Run(job, step.next, vs[1..]) == Some(rest)
    ensures OneKey(step.out + rest, k)
  {
    hide Unmasked;
    var v := vs[0];
    StepCases(job, k, s, v, step);
    var whole := Suffix(s) + [v];
    assert whole[|whole| - 1] == v && (Suffix(s) != [] ==> whole[0] == Suffix(s)[0]);
    if rest != [] {
      PointsMember(rest, k, 0);
      RunSource(job, k, step.next, vs[1..], rest, rest[0].seqno);
      OneKeyBelow(Unmasked(job, vs[1..]), k, rest[0].seqno);
    }
    OneKeyConcat(step.out, rest, k);
  }
}
