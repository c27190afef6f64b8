/** The merge loop treats every key on its own: what it writes for `k` is what it
    would write if the stream held only `k`. */
module Projection {
  import opened Semantics
  import opened Rewrite
  import opened Tables
  import opened RunSpan

  function Only(vs: seq<Version>, k: Key): seq<Version>
  {
    if vs == [] then []
    else if vs[0].key == k then [vs[0]] + Only(vs[1..], k)
    else Only(vs[1..], k)
  }

  lemma {:induction false} OnlyConcat(a: seq<Version>, b: seq<Version>, k: Key)
    ensures Only(a + b, k) == Only(a, k) + Only(b, k)
  {
    if a == [] {
      assert a + b == b;
    } else {
      assert (a + b)[1..] == a[1..] + b;
      OnlyConcat(a[1..], b, k);
    }
  }

  lemma {:induction false} OnlyPoints(vs: seq<Version>, k: Key)
    ensures PointsOf(Only(vs, k), k) == PointsOf(vs, k)
  {
    if vs == [] {
    } else {
      OnlyPoints(vs[1..], k);
    }
  }

  lemma {:induction false} OnlyNone(vs: seq<Version>, k: Key)
    requires forall i :: 0 <= i < |vs| ==> vs[i].key != k
    ensures Only(vs, k) == []
  {
    if vs == [] {
    } else {
      OnlyNone(vs[1..], k);
    }
  }

  lemma {:induction false} OnlyAll(vs: seq<Version>, k: Key)
    requires forall i :: 0 <= i < |vs| ==> vs[i].key == k
    ensures Only(vs, k) == vs
  {
    if vs == [] {
    } else {
      OnlyAll(vs[1..], k);
    }
  }

  lemma {:induction false} OnlyOneKey(vs: seq<Version>, k: Key)
    requires Sorted(vs)
    ensures OneKey(Only(vs, k), k)
    ensures Only(vs, k) != [] ==> vs != [] && (Only(vs, k)[0] == vs[0] || Precedes(vs[0], Only(vs, k)[0]))
  {
    if vs == [] {
    } else {
      OnlyOneKey(vs[1..], k);
      if |vs| > 1 { assert Precedes(vs[0], vs[1]); }
      if vs[0].key == k { OneKeyConcat([vs[0]], Only(vs[1..], k), k); }
    }
  }

  /** The part of a loop state that concerns `k`. */
  function Project(s: LoopState, k: Key): LoopState
  {
    LoopState(if s.retained.lastKey == Some(k) then s.retained else FRESH,
              if s.pending.Some? && s.pending.value.key == k then s.pending else None)
  }

  /** The state is not ahead of the stream. */
  ghost predicate Past(s: LoopState, vs: seq<Version>)
  {
    vs != [] ==>
      && (s.retained.lastKey.Some? ==> s.retained.lastKey.value <= vs[0].key)
      && (s.pending.Some? ==> s.pending.value.key <= vs[0].key)
  }

  lemma FlushKeys(job: Job, s: LoopState, i: nat)
    requires StateOk(job, s) && FlushPending(job, s.pending).Some? && i < |FlushPending(job, s.pending).value|
    ensures s.pending.Some? && FlushPending(job, s.pending).value[i].key == s.pending.value.key
  {
  }

  /** A flushed suffix shows up under its own key only. */
  lemma {:induction false} FlushOnly(job: Job, s: LoopState, k: Key)
    requires StateOk(job, s) && FlushPending(job, s.pending).Some?
    ensures Only(FlushPending(job, s.pending).value, k) ==
            if s.pending.Some? && s.pending.value.key == k then FlushPending(job, s.pending).value else []
  {
    var f := FlushPending(job, s.pending).value;
    forall i | 0 <= i < |f| ensures f[i].key == s.pending.value.key { FlushKeys(job, s, i); }
    if s.pending.Some? && s.pending.value.key == k { OnlyAll(f, k); } else { OnlyNone(f, k); }
  }

  /** What a step writes for a version of another key. */
  lemma {:induction false} StepOther(job: Job, s: LoopState, v: Version, k: Key)
    requires StateOk(job, s) && v.key != k && Step(job, s, v).Stepped?
    ensures var step := Step(job, s, v);
            && StateOk(job, step.next)
            && (step.next.pending.Some? ==> step.next.pending.value.key == v.key)
            && (step.next.retained.lastKey == Some(v.key) || step.next.retained == s.retained)
            && Only(step.out, k) == if s.pending.Some?
                && s.pending.value.key == k then FlushPending(job, s.pending).value else []
  {
    hide FlushPending;
    var step := Step(job, s, v);
    if s.pending.Some? && s.pending.value.key != v.key {
      var f := FlushPending(job, s.pending).value;
      FlushOnly(job, s, k);
      StepCrossed(job, s, v);
      OnlyConcat(f, [v], k);
    } else {
      var p, q := StepWrites(job, s, v);
      StepOtherKeys(job, s, v);
      OnlyNone(step.out, k);
    }
  }

  lemma StepOtherKeys(job: Job, s: LoopState, v: Version)
    requires StateOk(job, s) && Step(job, s, v).Stepped?
    requires s.pending.Some? ==> s.pending.value.key == v.key
    ensures forall i :: 0 <= i < |Step(job, s, v).out| ==> Step(job, s, v).out[i].key == v.key
    ensures Step(job, s, v).next.pending.Some? ==> Step(job, s, v).next.pending.value.key == v.key
  {
  }

  lemma DecisionSame(job: Job, s: LoopState, v: Version)
    ensures Decision(job, s.retained, v) == Decision(job, Project(s, v.key).retained, v)
    ensures Decision(job, s.retained, v).1.lastKey == Some(v.key)
  {
  }

  lemma StepSameInKey(job: Job, s: LoopState, v: Version)
    requires Step(job, s, v).Stepped?
    requires s.pending.Some? ==> s.pending.value.key == v.key
    ensures var step, own := Step(job, s, v), Step(job, Project(s, v.key), v);
            && own.Stepped? && own.out == step.out && own.next == Project(step.next, v.key)
            && (step.next.retained.lastKey == Some(v.key) || step.next.retained == s.retained)
  {
    DecisionSame(job, s, v);
    assert Project(s, v.key).pending == s.pending;
  }

  lemma StepSameCrossed(job: Job, s: LoopState, v: Version)
    requires Step(job, s, v).Stepped?
    requires s.pending.Some? && s.pending.value.key != v.key
    ensures var step, own := Step(job, s, v), Step(job, Project(s, v.key), v);
            && own.Stepped? && step.out == FlushPending(job, s.pending).value + own.out
            && own.next == Project(step.next, v.key)
            && (step.next.retained.lastKey == Some(v.key) || step.next.retained == s.retained)
  {
    DecisionSame(job, s, v);
    var own := Step(job, Project(s, v.key), v);
    assert [] + own.out == own.out;
    assert FlushPending(job, s.pending).value + [] == FlushPending(job, s.pending).value;
  }

  /** A version of `k` is treated the same in the whole loop and in the projected one. */
  lemma StepSame(job: Job, s: LoopState, v: Version, step: Stepped, own: Stepped)
    requires StateOk(job, s) && step == Step(job, s, v) && own == Step(job, Project(s, v.key), v)
    requires step.Stepped?
    ensures StateOk(job, step.next)
    ensures own.Stepped? && own.out == Only(step.out, v.key) && own.next == Project(step.next, v.key)
    ensures step.next.pending.Some? ==> step.next.pending.value.key == v.key
    ensures step.next.retained.lastKey == Some(v.key) || step.next.retained == s.retained
  {
    var k := v.key;
    var p, q := StepWrites(job, s, v);
    if s.pending.Some? && s.pending.value.key != k {
      StepSameCrossed(job, s, v);
      FlushOnly(job, s, k);
      OnlyConcat(FlushPending(job, s.pending).value, own.out, k);
      StepOtherKeys(job, Project(s, k), v);
      OnlyAll(own.out, k);
      StepCrossed(job, s, v);
    } else {
      StepSameInKey(job, s, v);
      StepOtherKeys(job, s, v);
      OnlyAll(step.out, k);
    }
  }

  /** Nothing of `k` left, nothing of `k` written. */
  lemma {:induction false} RunAbsent(job: Job, s: LoopState, vs: seq<Version>, k: Key, out: seq<Version>)
    requires StateOk(job, s) && Run(job, s, vs) == Some(out)
    requires forall i :: 0 <= i < |vs| ==> vs[i].key != k
    requires s.pending.Some? ==> s.pending.value.key != k
    ensures Only(out, k) == []
    decreases |vs|
  {
    if vs == [] {
      FlushOnly(job, s, k);
    } else {
      StepOther(job, s, vs[0], k);
      var step := Step(job, s, vs[0]);
      var rest := Run(job, step.next, vs[1..]).value;
      RunAbsent(job, step.next, vs[1..], k, rest);
      OnlyConcat(step.out, rest, k);
    }
  }

  /** The loop, seen by one key. */
  lemma {:induction false} RunProjects(job: Job, s: LoopState, vs: seq<Version>, k: Key, out: seq<Version>)
    requires Sorted(vs) && StateOk(job, s) && Past(s, vs)
    requires Run(job, s, vs) == Some(out)
    ensures Run(job, Project(s, k), Only(vs, k)) == Some(Only(out, k))
    decreases |vs|
  {
    if vs == [] {
      FlushOnly(job, s, k);
    } else {
      var v, step := vs[0], Step(job, s, vs[0]);
      var rest := Run(job, step.next, vs[1..]).value;
      OnlyConcat(step.out, rest, k);
      if |vs| > 1 { assert Precedes(vs[0], vs[1]); }
      if v.key == k {
        StepSame(job, s, v, step, Step(job, Project(s, k), v));
        RunProjects(job, step.next, vs[1..], k, rest);
        assert Only(vs, k)[1..] == Only(vs[1..], k);
      } else {
        StepOther(job, s, v, k);
        if (s.pending.Some? && s.pending.value.key == k) || s.retained.lastKey == Some(k) {
          forall i | 0 <= i < |vs| ensures vs[i].key > k {
            if i > 0 { assert Precedes(vs[0], vs[i]); }
          }
          OnlyNone(vs, k);
          RunAbsent(job, step.next, vs[1..], k, rest);
          assert out == step.out + rest && Only(out, k) == Only(step.out, k) + [] == Only(step.out, k);
          assert Some(Only(step.out, k)) == FlushPending(job, Project(s, k).pending);
        } else {
          RunProjects(job, step.next, vs[1..], k, rest);
          assert Project(step.next, k) == Project(s, k);
          assert [] + Only(rest, k) == Only(rest, k);
        }
      }
    }
  }
}
