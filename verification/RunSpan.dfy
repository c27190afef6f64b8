/**
 `run_span`: the merge loop of one job span, from input cursors through the
 retention and folding rules to the output builder.
 */
module RunSpan {
  import opened Semantics
  import opened Rewrite
  import opened Preservation
  import opened KeyTheorem
  import opened Fragments
  import opened Tables
  import opened MergeInputs
  import opened OutputBuilder

  // ---- the loop as a left fold --------------------------------------------------------

  /** The state and output after the versions read so far. */
  function RunTo(job: Job, done: seq<Version>): Stepped
  {
    if done == [] then Stepped([], START)
    else
      var before := RunTo(job, done[..|done| - 1]);
      if before.Failed? then Failed
      else
        var step := Step(job, before.next, done[|done| - 1]);
        if step.Failed? then Failed else Stepped(before.out + step.out, step.next)
  }

  function Prepend(head: seq<Version>, rest: Emitted): Emitted
  {
    if rest.None? then None else Some(head + rest.value)
  }

  lemma {:induction false} RunResumes(job: Job, done: seq<Version>, rest: seq<Version>)
    ensures var now := RunTo(job, done);
            Run(job, START, done + rest) == if now.Failed? then None else Prepend(now.out, Run(job, now.next, rest))
    decreases |done|
  {
    if done == [] {
      assert done + rest == rest;
      var r := Run(job, START, rest);
      if r.Some? { assert [] + r.value == r.value; }
    } else {
      var init, v := done[..|done| - 1], done[|done| - 1];
      assert done + rest == init + ([v] + rest);
      assert ([v] + rest)[1..] == rest;
      RunResumes(job, init, [v] + rest);
      var before := RunTo(job, init);
      if before.Stepped? {
        var step := Step(job, before.next, v);
        if step.Stepped? {
          var tail := Run(job, step.next, rest);
          if tail.Some? {
            assert before.out + (step.out + tail.value) == (before.out + step.out) + tail.value;
          }
        }
      }
    }
  }

  // ---- what is written stays in internal order ------------------------------------------

  ghost predicate StateOk(job: Job, s: LoopState)
  {
    s.pending.Some? ==> InKey(job, s, s.pending.value.key)
  }

  ghost predicate Behind(vs: seq<Version>, v: Version)
  {
    forall i :: 0 <= i < |vs| ==> Precedes(vs[i], v)
  }

  /** The suffix as it is, or the one version it folds to. */
  ghost predicate FoldOf(p: seq<Version>, q: seq<Version>)
  {
    p == q || (p != [] && |q| == 1 && SameSlot(p[0], q[0]))
  }

  lemma FlushFold(job: Job, s: LoopState)
    requires StateOk(job, s) && FlushPending(job, s.pending).Some?
    ensures FoldOf(Suffix(s), FlushPending(job, s.pending).value)
  {
  }

  /** A step writes or keeps pending the old suffix, possibly folded, then the new version. */
  lemma StepWrites(job: Job, s: LoopState, v: Version) returns (p: seq<Version>, q: seq<Version>)
    requires StateOk(job, s) && Step(job, s, v).Stepped?
    ensures StateOk(job, Step(job, s, v).next)
    ensures Step(job, s, v).out + Suffix(Step(job, s, v).next) == p + q
    ensures FoldOf(Suffix(s), p) && (q == [] || q == [v])
  {
    var step := Step(job, s, v);
    var crossed := s.pending.Some? && s.pending.value.key != v.key;
    if crossed {
      p := FlushPending(job, s.pending).value;
      FlushFold(job, s);
      StepCrossed(job, s, v);
      q := if step.out == p && step.next.pending.None? then [] else [v];
    } else if Masked(job, v) {
      p, q := Suffix(s), [];
    } else {
      var k := v.key;
      StepCases(job, k, s, v, step);
      if step.out == [] && Suffix(step.next) == Suffix(s) {
        p, q := Suffix(s), [];
      } else if step.out == [] || step.out == Suffix(s) + [v] {
        p, q := Suffix(s), [v];
      } else {
        p, q := step.out, [];
      }
    }
  }

  lemma StepCrossed(job: Job, s: LoopState, v: Version)
    requires StateOk(job, s) && Step(job, s, v).Stepped?
    requires s.pending.Some? && s.pending.value.key != v.key
    ensures var step, p := Step(job, s, v), FlushPending(job, s.pending).value;
            && StateOk(job, step.next)
            && (step.out == p || step.out == p + [v])
            && step.out + Suffix(step.next) == if step.out == p && step.next.pending.None? then p else p + [v]
  {
    var p := FlushPending(job, s.pending).value;
    assert p + [] == p;
    assert [] + [v] == [v];
  }

  lemma SortedFold(o: seq<Version>, p: seq<Version>, q: seq<Version>)
    requires Sorted(o + p) && FoldOf(p, q)
    ensures Sorted(o + q)
  {
    if p != q {
      var whole := o + p;
      assert whole[|o|] == p[0];
      forall i | 0 <= i < |o| ensures Precedes((o + q)[i], q[0]) {
        assert Precedes(whole[i], whole[|o|]);
      }
      assert Sorted(o) by { assert o == whole[..|o|]; }
    }
  }

  lemma BehindFold(o: seq<Version>, p: seq<Version>, q: seq<Version>, v: Version)
    requires Behind(o + p, v) && FoldOf(p, q)
    ensures Behind(o + q, v)
  {
    forall i | 0 <= i < |o + q| ensures Precedes((o + q)[i], v) {
      if i < |o| { assert (o + p)[i] == o[i]; }
      else if p == q { assert (o + p)[i] == (o + q)[i]; }
      else { assert (o + p)[|o|] == p[0]; }
    }
  }

  lemma SortedSnoc(a: seq<Version>, v: Version)
    requires Sorted(a) && Behind(a, v)
    ensures Sorted(a + [v])
  {
  }

  lemma BehindTrans(a: seq<Version>, v: Version, w: Version)
    requires Behind(a, v) && Precedes(v, w)
    ensures Behind(a, w) && Behind(a + [v], w)
  {
  }

  /** One step keeps everything written and pending in order, and no later than `v`. */
  lemma StepOrder(job: Job, s: LoopState, o: seq<Version>, v: Version)
    requires StateOk(job, s) && Step(job, s, v).Stepped?
    requires Sorted(o + Suffix(s)) && Behind(o + Suffix(s), v)
    ensures var step := Step(job, s, v);
            && StateOk(job, step.next)
            && Sorted(o + step.out + Suffix(step.next))
            && forall w :: Precedes(v, w) ==> Behind(o + step.out + Suffix(step.next), w)
  {
    hide Suffix;
    var step := Step(job, s, v);
    var p, q := StepWrites(job, s, v);
    SortedFold(o, Suffix(s), p);
    BehindFold(o, Suffix(s), p, v);
    var all := o + p + q;
    assert o + step.out + Suffix(step.next) == o + (step.out + Suffix(step.next)) == o + (p + q) == all;
    if q == [] { assert all == o + p; } else { SortedSnoc(o + p, v); }
    forall w | Precedes(v, w) ensures Behind(all, w) {
      BehindTrans(o + p, v, w);
    }
  }

  /** What a change of key writes first, and what stays pending. */
  function Crossing(job: Job, pending: Option<PendingFold>, v: Version): Emitted
  {
    if pending.Some? && pending.value.key != v.key then FlushPending(job, pending) else Some([])
  }

  function Staying(pending: Option<PendingFold>, v: Version): Option<PendingFold>
  {
    if pending.Some? && pending.value.key != v.key then None else pending
  }

  lemma StepParts(job: Job, s: LoopState, v: Version)
    ensures var first, pending, (keep, retained) := Crossing(job, s.pending, v), Staying(s.pending, v),
              Decision(job, s.retained, v);
            Step(job, s, v) ==
            if first.None? then Failed
            else if Masked(job, v) then Stepped(first.value, LoopState(s.retained, pending))
            else if !keep then Stepped(first.value, LoopState(retained, pending))
            else
              var kept := StepKept(job, v, pending, retained);
              if kept.Failed? then Failed else Stepped(first.value + kept.out, kept.next)
  {
  }

  ghost predicate InOrder(done: seq<Version>, now: Stepped)
    requires now.Stepped?
  {
    && Sorted(now.out + Suffix(now.next))
    && forall w :: (done != [] ==> Precedes(done[|done| - 1], w)) ==> Behind(now.out + Suffix(now.next), w)
  }

  /** For any input order-preserving stream, what the loop writes is in internal order. */
  lemma {:induction false} RunOrder(job: Job, done: seq<Version>)
    requires Sorted(done) && RunTo(job, done).Stepped?
    ensures StateOk(job, RunTo(job, done).next) && InOrder(done, RunTo(job, done))
    decreases |done|
  {
    if done == [] {
    } else {
      var init, v := done[..|done| - 1], done[|done| - 1];
      RunOrder(job, init);
      if init != [] { assert Precedes(init[|init| - 1], v); }
      var before := RunTo(job, init);
      assert Behind(before.out + Suffix(before.next), v);
      StepOrder(job, before.next, before.out, v);
    }
  }

  // ---- the imperative loop ---------------------------------------------------------------

  /** The mutable parts of `run_span`: retention state, pending suffix, output builder. */
  class SpanMerge {
    const job: Job
    const retention: VersionRetention
    const out: CompactionOutputBuilder
    var pending: Option<PendingFold>

    ghost predicate Valid()
      reads this, retention, out
    {
      retention.job == job && out.Valid()
    }

    function State(): LoopState
      reads this, retention
    {
      LoopState(retention.State(), pending)
    }

    constructor (job: Job, out: CompactionOutputBuilder)
      requires out.Valid()
      ensures Valid() && State() == START && this.out == out && this.job == job
      ensures fresh(retention)
    {
      this.job, this.out := job, out;
      retention := new VersionRetention(job);
      pending := None;
    }

    /** Write several versions in order. */
    method EmitAll(vs: seq<Version>)
      requires Valid() && Sorted(out.written + vs)
      modifies out
      ensures Valid() && out.written == old(out.written) + vs
    {
      hide Tidy, AllPoints, Bounded;
      var i := 0;
      while i < |vs|
        invariant 0 <= i <= |vs|
        invariant Valid() && out.written == old(out.written) + vs[..i]
      {
        assert old(out.written) + vs[..i] + [vs[i]] == (old(out.written) + vs)[..|old(out.written)| + i + 1];
        out.Write(vs[i]);
        i := i + 1;
      }
      assert vs[..i] == vs;
    }

    /** `flush_pending`: fold at the bottom, write back unchanged above it. */
    method Flush() returns (ok: bool)
      requires Valid()
      requires FlushPending(job, pending).Some? ==> Sorted(out.written + FlushPending(job, pending).value)
      modifies this, out
      ensures Valid() && pending == None
      ensures ok <==> FlushPending(job, old(pending)).Some?
      ensures ok ==> out.written == old(out.written) + FlushPending(job, old(pending)).value
    {
      var p := pending;
      pending := None;
      if p.None? {
        assert out.written + [] == out.written;
        return true;
      }
      if job.bottom {
        var folded := EmitFold(job, p.value, None);
        if folded.None? { return false; }
        EmitAll(folded.value);
      } else {
        EmitAll(p.value.operands);
      }
      return true;
    }

    /** One kept version meets the pending suffix. */
    method Keep(v: Version) returns (ok: bool)
      requires Valid()
      requires var kept := StepKept(job, v, pending, retention.State());
               kept.Stepped? ==> Sorted(out.written + kept.out)
      modifies this, out
      ensures Valid()
      ensures var kept := StepKept(job, v, old(pending), retention.State());
              && (ok <==> kept.Stepped?)
              && (ok ==> State() == kept.next && out.written == old(out.written) + kept.out)
    {
      var foldable := job.folding && v.seqno <= job.oldest;
      if foldable && v.entry.Operand? {
        var p := if pending.Some? then pending.value else PendingFold(v.key, []);
        pending := Some(p.(operands := p.operands + [v]));
        assert out.written + [] == out.written;
        return true;
      }
      if pending.None? {
        EmitAll([v]);
        return true;
      }
      var p := pending.value;
      pending := None;
      if foldable && (v.entry.Tombstone? || v.entry.ttl == 0) {
        var folded := EmitFold(job, p, if v.entry.Tombstone? then None else Some(v.entry.value));
        if folded.None? { return false; }
        EmitAll(folded.value);
      } else {
        EmitAll(p.operands + [v]);
      }
      return true;
    }

    /** A change of key sends the pending suffix out first. */
    method Cross(v: Version) returns (ok: bool)
      requires Valid() && StateOk(job, State()) && Sorted(out.written + Suffix(State()))
      modifies this, out
      ensures Valid()
      ensures ok <==> Crossing(job, old(pending), v).Some?
      ensures ok ==>
                pending == Staying(old(pending), v)
                    && out.written == old(out.written) + Crossing(job, old(pending), v).value
    {
      if pending.Some? && pending.value.key != v.key {
        if FlushPending(job, pending).Some? {
          FlushFold(job, State());
          SortedFold(out.written, Suffix(State()), FlushPending(job, pending).value);
        }
        ok := Flush();
      } else {
        assert out.written + [] == out.written;
        return true;
      }
    }

    /** The retention rule, then the pending suffix. */
    method Offer(v: Version) returns (ok: bool)
      requires Valid()
      requires var (keep, retained) := Decision(job, retention.State(), v);
               var kept := StepKept(job, v, pending, retained);
               keep && kept.Stepped? ==> Sorted(out.written + kept.out)
      modifies this, retention, out
      ensures Valid()
      ensures var (keep, retained) := Decision(job, old(retention.State()), v);
              var kept := StepKept(job, v, old(pending), retained);
              && (ok <==> !keep || kept.Stepped?)
              && (ok ==> State() == if keep then kept.next else LoopState(retained, old(pending)))
              && (ok ==> out.written == old(out.written) + if keep then kept.out else [])
    {
      hide Bounded, Precedes, Sorted, StepKept, Decision, AllPoints;
      var keep, _ := retention.Decide(v);
      if !keep {
        assert out.written + [] == out.written;
        return true;
      }
      ok := Keep(v);
    }

    /** One version of the merged stream; `mask` is the newest settled range delete over it. */
    method Process(v: Version, mask: Option<nat>) returns (ok: bool)
      requires Valid() && mask == job.mask(v.key) && StateOk(job, State())
      requires Sorted(out.written + Suffix(State())) && Behind(out.written + Suffix(State()), v)
      modifies this, retention, out
      ensures Valid()
      ensures ok <==> Step(job, old(State()), v).Stepped?
      ensures ok ==> State() == Step(job, old(State()), v).next
      ensures ok ==> out.written == old(out.written) + Step(job, old(State()), v).out
    {
      hide Bounded, Precedes, FlushPending, Step, AllPoints;
      hide Sorted, StateOk, Behind, Suffix, Crossing, StepKept, Decision;
      ghost var s, w := State(), out.written;
      StepParts(job, s, v);
      ok := Cross(v);
      if !ok { return false; }
      if mask.Some? && v.seqno < mask.value { return true; }
      ProcessOrder(job, s, w, v);
      ok := Offer(v);
    }
  }

  /** What a version adds to the output, after its crossing, keeps the order. */
  lemma ProcessOrder(job: Job, s: LoopState, w: seq<Version>, v: Version)
    requires StateOk(job, s) && Sorted(w + Suffix(s)) && Behind(w + Suffix(s), v)
    requires Crossing(job, s.pending, v).Some? && !Masked(job, v)
    ensures var first, (keep, retained) := Crossing(job, s.pending, v).value, Decision(job, s.retained, v);
            var kept := StepKept(job, v, Staying(s.pending, v), retained);
            && (keep && kept.Stepped? ==>
                Sorted(w + first + kept.out) && w + (first + kept.out) == w + first + kept.out)
            && w + first + [] == w + first
  {
    hide Sorted, StateOk, Behind, Suffix, Crossing, StepKept, Decision, Step, Masked;
    StepParts(job, s, v);
    var step := Step(job, s, v);
    if step.Stepped? && Decision(job, s.retained, v).0 {
      StepOrder(job, s, w, v);
      SortedPrefix(w + step.out, Suffix(step.next));
      var first, kept := Crossing(job, s.pending, v).value,
          StepKept(job, v, Staying(s.pending, v), Decision(job, s.retained, v).1);
      assert w + (first + kept.out) == w + first + kept.out;
    }
  }

  lemma SortedPrefix(a: seq<Version>, b: seq<Version>)
    requires Sorted(a + b)
    ensures Sorted(a)
  {
    assert a == (a + b)[..|a|];
  }

  // ---- one span of a job -------------------------------------------------------------------

  function PointLists(ts: seq<Table>): (r: seq<seq<Version>>)
    ensures |r| == |ts| && forall i :: 0 <= i < |ts| ==> r[i] == ts[i].points
    ensures Flatten(r) == AllPoints(ts)
  {
    if ts == [] then [] else [ts[0].points] + PointLists(ts[1..])
  }

  /** `collect_input_ranges`: every input fragment, one span per covering sequence. */
  function InputRanges(ts: seq<Table>): seq<Span>
  {
    if ts == [] then [] else SpansOfFragments(ts[0].frags) + InputRanges(ts[1..])
  }

  lemma {:induction false} InputRangesCover(ts: seq<Table>, k: Key)
    ensures SpanCovers(InputRanges(ts), k) == AllCovers(ts, k)
  {
    if ts == [] {
    } else {
      InputRangesCover(ts[1..], k);
      ExplodeKeepsCovers(ts[0].frags, k);
      SpanCoversConcat(SpansOfFragments(ts[0].frags), InputRanges(ts[1..]), k);
    }
  }

  /** The job was frozen over these inputs: its mask is their newest settled range delete. */
  ghost predicate FrozenOver(job: Job, inputs: seq<Table>)
  {
    && (forall i :: 0 <= i < |inputs| ==> WellFormed(inputs[i]))
    && (forall k: Key :: NewestAtMost(job.mask(k), AllCovers(inputs, k), job.oldest))
  }

  /** The fragments a span writes back. */
  ghost predicate RetainedFrom(job: Job, inputs: seq<Table>, lower: Option<Key>, upper: Option<Key>,
                               frags: seq<Fragment>)
  {
    && Tidy(frags) && Bounded(frags, lower, upper)
    && forall k: Key :: CoversOf(frags, k) ==
         if InBounds(k, lower, upper) then KeptCovers(job, k, AllCovers(inputs, k)) else {}
  }

  /** The versions a span writes: the rewritten merge of the inputs' versions in it. */
  function SpanStream(inputs: seq<Table>, lower: Option<Key>, upper: Option<Key>): seq<Version>
  {
    Merged(InSpan(AllPoints(inputs), lower, upper))
  }

  lemma {:induction false} RetainedKeeps(job: Job, inputs: seq<Table>, covering: seq<Fragment>, k: Key)
    requires FrozenOver(job, inputs) && Tidy(covering)
    requires CoversOf(covering, k) == AllCovers(inputs, k)
    ensures CoversOf(RetainedFragments(covering, job.oldest, job.bottom), k) == KeptCovers(job, k, AllCovers(inputs, k))
  {
    forall c: nat
      ensures c in CoversOf(RetainedFragments(covering, job.oldest, job.bottom), k) <==>
                c in KeptCovers(job, k, AllCovers(inputs, k))
    {
      RetainedKeepsCovers(covering, job.oldest, job.bottom, k, c);
      if NewestAtMost(Some(c), AllCovers(inputs, k), job.oldest) {
        NewestUnique(Some(c), job.mask(k), AllCovers(inputs, k), job.oldest);
      }
    }
  }

  /** Fragment the inputs' range deletes over the span and decide which survive. */
  method SpanFragments(job: Job, inputs: seq<Table>, lower: Option<Key>, upper: Option<Key>)
    returns (covering: seq<Fragment>, retained: seq<Fragment>)
    requires FrozenOver(job, inputs)
    ensures Tidy(covering)
    ensures forall k: Key :: InBounds(k, lower, upper) ==> CoversOf(covering, k) == AllCovers(inputs, k)
    ensures RetainedFrom(job, inputs, lower, upper, retained)
  {
    covering := FragmentSpans(InputRanges(inputs), lower, upper);
    retained := RetainedFragments(covering, job.oldest, job.bottom);
    RetainedTidy(covering, job.oldest, job.bottom);
    RetainedBounded(covering, job.oldest, job.bottom, lower, upper);
    forall k: Key
      ensures InBounds(k, lower, upper) ==> CoversOf(covering, k) == AllCovers(inputs, k)
      ensures CoversOf(retained, k) == if InBounds(k, lower, upper) then KeptCovers(job, k, AllCovers(inputs, k))
                else {}
    {
      InputRangesCover(inputs, k);
      if InBounds(k, lower, upper) {
        RetainedKeeps(job, inputs, covering, k);
      } else {
        forall c: nat ensures c !in CoversOf(retained, k) {
          RetainedKeepsCovers(covering, job.oldest, job.bottom, k, c);
        }
      }
    }
  }

  /** The loop's mask lookups answer the job's mask on every key of the span. */
  ghost predicate CoversSpan(job: Job, covering: seq<Fragment>, lower: Option<Key>, upper: Option<Key>)
  {
    && Tidy(covering)
    && forall k: Key :: InBounds(k, lower, upper) ==> NewestAtMost(job.mask(k), CoversOf(covering, k), job.oldest)
  }

  /** One iteration: read the next version of the merge and process it. */
  method Advance(loop: SpanMerge, cursors: InputCursors, covering: seq<Fragment>) returns (more: bool, ok: bool)
    requires loop.Valid() && cursors.Valid()
    requires RunTo(loop.job, cursors.done) == Stepped(loop.out.written, loop.State())
    requires CoversSpan(loop.job, covering, cursors.lower, cursors.upper)
    modifies loop, loop.retention, loop.out, cursors
    ensures loop.Valid() && cursors.Valid()
    ensures RunTo(loop.job, cursors.done) == if ok then Stepped(loop.out.written, loop.State()) else Failed
    ensures more ==> Left(cursors.inputs, cursors.pos) < old(Left(cursors.inputs, cursors.pos))
    ensures Left(cursors.inputs, cursors.pos) <= old(Left(cursors.inputs, cursors.pos))
    ensures !more ==> ok && cursors.done == Merged(InSpan(Flatten(cursors.inputs), cursors.lower, cursors.upper))
  {
    hide CoversOf, InOrder;
    var job := loop.job;
    ghost var seen := cursors.done;
    var v := cursors.Next();
    if v.None? { return false, true; }
    RunOrder(job, seen);
    NextInOrder(job, seen, v.value, loop.out.written, loop.State());
    assert v.value in cursors.done;
    var mask := CoveringSeqIn(covering, v.value.key, job.oldest);
    NewestUnique(mask, job.mask(v.value.key), CoversOf(covering, v.value.key), job.oldest);
    more := true;
    ok := loop.Process(v.value, mask);
    assert cursors.done[..|cursors.done| - 1] == seen;
  }

  /** After the last version: flush what is pending. */
  method FlushRest(loop: SpanMerge, ghost stream: seq<Version>) returns (ok: bool)
    requires loop.Valid() && Sorted(stream)
    requires RunTo(loop.job, stream) == Stepped(loop.out.written, loop.State())
    modifies loop, loop.out
    ensures loop.Valid()
    ensures ok <==> Run(loop.job, START, stream).Some?
    ensures ok ==> loop.out.written == Run(loop.job, START, stream).value
  {
    RunResumes(loop.job, stream, []);
    assert stream + [] == stream;
    RunOrder(loop.job, stream);
    if FlushPending(loop.job, loop.pending).Some? {
      FlushFold(loop.job, loop.State());
      SortedFold(loop.out.written, Suffix(loop.State()), FlushPending(loop.job, loop.pending).value);
    }
    ok := loop.Flush();
  }

  /** An operator error part way through the merge fails the whole run. */
  lemma {:induction false} StoppedEarly(job: Job, cursors: InputCursors)
    requires cursors.Valid() && RunTo(job, cursors.done) == Failed
    ensures Run(job, START, Merged(InSpan(Flatten(cursors.inputs), cursors.lower, cursors.upper))) == None
  {
    var stream := Merged(InSpan(Flatten(cursors.inputs), cursors.lower, cursors.upper));
    cursors.DonePrefix();
    RunResumes(job, cursors.done, stream[|cursors.done|..]);
    assert stream == cursors.done + stream[|cursors.done|..];
  }

  /** Read the whole merge through the loop body. */
  method Drive(loop: SpanMerge, cursors: InputCursors, covering: seq<Fragment>) returns (ok: bool)
    requires loop.Valid() && loop.State() == START && loop.out.written == []
    requires cursors.Valid() && cursors.done == []
    requires CoversSpan(loop.job, covering, cursors.lower, cursors.upper)
    modifies loop, loop.retention, loop.out, cursors
    ensures loop.Valid()
    ensures var run := Run(loop.job, START, Merged(InSpan(Flatten(cursors.inputs), cursors.lower, cursors.upper)));
            (ok <==> run.Some?) && (ok ==> loop.out.written == run.value)
  {
    ghost var stream := Merged(InSpan(Flatten(cursors.inputs), cursors.lower, cursors.upper));
    var more := true;
    while more
      invariant loop.Valid() && cursors.Valid()
      invariant RunTo(loop.job, cursors.done) == Stepped(loop.out.written, loop.State())
      invariant !more ==> cursors.done == stream
      decreases Left(cursors.inputs, cursors.pos), more
    {
      more, ok := Advance(loop, cursors, covering);
      if !ok {
        StoppedEarly(loop.job, cursors);
        return;
      }
    }
    MergedSorted(InSpan(Flatten(cursors.inputs), cursors.lower, cursors.upper));
    ok := FlushRest(loop, stream);
  }

  lemma {:induction false} NextInOrder(job: Job, seen: seq<Version>, v: Version, written: seq<Version>, s: LoopState)
    requires Sorted(seen + [v]) && RunTo(job, seen) == Stepped(written, s) && InOrder(seen, RunTo(job, seen))
    ensures Behind(written + Suffix(s), v)
  {
    if seen != [] {
      assert Precedes((seen + [v])[|seen| - 1], (seen + [v])[|seen|]);
    }
  }

  /** Merge one span of `inputs` into tables for `target`. `None` is an operator error. */
  method RunOneSpan(job: Job, inputs: seq<Table>, lower: Option<Key>, upper: Option<Key>,
                    target: nat, targetFileSize: nat, size: Version -> nat, partitioner: Option<Partitioner>,
                    nextId: nat)
    returns (tables: Option<seq<Table>>, ghost written: seq<Version>, ghost frags: seq<Fragment>)
    requires FrozenOver(job, inputs)
    ensures tables.None? <==> Run(job, START, SpanStream(inputs, lower, upper)) == None
    ensures tables.Some? ==>
              && Run(job, START, SpanStream(inputs, lower, upper)) == Some(written)
              && RetainedFrom(job, inputs, lower, upper, frags)
              && Built(tables.value, partitioner, written, frags, upper) && Numbered(tables.value, nextId, target)
              && CutWell(RulesOf(partitioner, targetFileSize, size), tables.value, None)
  {
    var covering, retained := SpanFragments(job, inputs, lower, upper);
    frags, written := retained, [];
    var out := new CompactionOutputBuilder(target, targetFileSize, size, partitioner, retained, upper, nextId);
    var loop := new SpanMerge(job, out);
    var cursors := new InputCursors(PointLists(inputs), lower, upper);
    var ok := Drive(loop, cursors, covering);
    if !ok { return None, [], []; }
    written := out.written;
    out.Finish();
    return Some(out.outputs), written, retained;
  }
}
