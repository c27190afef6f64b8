/**
 What a job writes for one key, as a closed form of the key's versions: what is folded,
 and what is reclaimed. Reads alone do not ask for this; a job that dropped nothing would
 keep them too.
 */
module Reclaim {
  import opened Semantics
  import opened Rewrite
  import opened Preservation
  import opened KeyTheorem
  import opened Tables
  import opened MergeInputs
  import opened RunSpan
  import opened Projection
  import opened JobTheorem

  /** How many leading versions are operands. */
  function LeadingOperands(us: seq<Version>): (n: nat)
    ensures n <= |us| && AllOperands(us[..n])
    ensures n < |us| ==> !us[n].entry.Operand?
  {
    if us == [] || !us[0].entry.Operand? then 0
    else
      var n := LeadingOperands(us[1..]);
      assert us[..n + 1] == [us[0]] + us[1..][..n];
      n + 1
  }

  /** A base that leaves the database: at the bottom, an expired put, or a delete under no
      operand that is written. */
  predicate Reclaimed(job: Job, live: bool, v: Version)
  {
    job.bottom && ((v.entry.Tombstone? && !live) || DropsExpired(job, v.entry))
  }

  function Folded(job: Job, k: Key, ops: seq<Version>, base: Option<Value>): Emitted
  {
    EmitFold(job, PendingFold(k, ops), base)
  }

  /** What is written for the unmasked settled versions: their operands down to the first
      base and that base, folded where the job folds; nothing under the base. `live` says
      that the newer version next to them is a written operand. */
  function SettledForm(job: Job, k: Key, live: bool, us: seq<Version>): Emitted
  {
    var n := LeadingOperands(us);
    var ops := us[..n];
    if n == |us| || Reclaimed(job, live || n > 0, us[n]) then
      if job.folding && job.bottom then Folded(job, k, ops, None) else Some(ops)
    else if job.folding && n > 0 && (us[n].entry.Tombstone? || us[n].entry.ttl == 0) then
      Folded(job, k, ops, if us[n].entry.Put? then Some(us[n].entry.value) else None)
    else Some(ops + [us[n]])
  }

  predicate EndsInOperand(vs: seq<Version>)
  {
    vs != [] && vs[|vs| - 1].entry.Operand?
  }

  /** What is written for all versions of `k`. */
  function KeyForm(job: Job, k: Key, vs: seq<Version>): Emitted
  {
    var i := RecentCount(job, vs);
    var recent := KeptRecent(job, vs[..i]);
    Prepend(recent, SettledForm(job, k, EndsInOperand(recent), Unmasked(job, vs[i..])))
  }

  // ---- settled versions -------------------------------------------------------------------------

  /** Whether the last version kept for `k` is an operand. */
  predicate Live(s: LoopState, k: Key)
  {
    s.retained.lastKey == Some(k) && s.retained.liveOperands
  }

  /** A loop state in the settled part of `k`, its base not met. */
  ghost predicate Settling(job: Job, s: LoopState, k: Key)
  {
    InKey(job, s, k) && (s.retained.lastKey == Some(k) ==> !s.retained.emitted)
  }

  lemma {:induction false} LeadingConcat(ops: seq<Version>, us: seq<Version>)
    requires AllOperands(ops)
    ensures LeadingOperands(ops + us) == |ops| + LeadingOperands(us)
    ensures (ops + us)[..|ops| + LeadingOperands(us)] == ops + us[..LeadingOperands(us)]
  {
    if ops == [] {
      assert ops + us == us;
    } else {
      assert (ops + us)[1..] == ops[1..] + us;
      LeadingConcat(ops[1..], us);
    }
  }

  /** Nothing more of `k` is read: the suffix goes out. */
  lemma FormEnds(job: Job, k: Key, s: LoopState)
    requires Settling(job, s, k)
    ensures FlushPending(job, s.pending) == SettledForm(job, k, Live(s, k), Suffix(s))
  {
    LeadingConcat(Suffix(s), []);
    assert Suffix(s) + [] == Suffix(s) && Suffix(s)[..|Suffix(s)|] == Suffix(s);
    if s.pending.Some? { assert s.pending.value == PendingFold(k, Suffix(s)); }
  }

  lemma FormAtBase(job: Job, k: Key, live: bool, ops: seq<Version>, us: seq<Version>)
    requires AllOperands(ops) && us != [] && !us[0].entry.Operand?
    ensures SettledForm(job, k, live, ops + us) ==
            if Reclaimed(job, live || ops != [], us[0]) then
              if job.folding && job.bottom then Folded(job, k, ops, None) else Some(ops)
            else if job.folding && ops != [] && (us[0].entry.Tombstone? || us[0].entry.ttl == 0) then
              Folded(job, k, ops, if us[0].entry.Put? then Some(us[0].entry.value) else None)
            else Some(ops + [us[0]])
  {
    hide Folded, Reclaimed;
    LeadingConcat(ops, us);
    assert us[..0] == [] && ops + [] == ops && (ops + us)[|ops|] == us[0];
  }

  lemma DecisionAtBase(job: Job, k: Key, s: LoopState, v: Version)
    requires Settling(job, s, k) && v.key == k && v.seqno <= job.oldest && !v.entry.Operand?
    ensures Decision(job, s.retained, v).0 <==> !Reclaimed(job, Live(s, k), v)
    ensures Decision(job, s.retained, v).1.lastKey == Some(k) && Decision(job, s.retained, v).1.emitted
    ensures !Decision(job, s.retained, v).0 ==> Decision(job, s.retained, v).1.liveOperands == Live(s, k)
  {
  }

  /** The base decides the rest. */
  lemma {:induction false} FormBase(job: Job, k: Key, s: LoopState, vs: seq<Version>)
    requires OneKey(vs, k) && Settling(job, s, k) && (forall i :: 0 <= i < |vs| ==> vs[i].seqno <= job.oldest)
    requires vs != [] && !Masked(job, vs[0]) && !vs[0].entry.Operand?
    ensures Run(job, s, vs) == SettledForm(job, k, Live(s, k), Suffix(s) + Unmasked(job, vs))
  {
    hide SettledForm;
    var v, ops := vs[0], Suffix(s);
    assert Unmasked(job, vs) == [v] + Unmasked(job, vs[1..]);
    FormAtBase(job, k, Live(s, k), ops, Unmasked(job, vs));
    DecisionAtBase(job, k, s, v);
    if Decision(job, s.retained, v).0 {
      BaseStep(job, k, s, v);
      var w := BaseWrites(job, s.pending, v);
      SettledRest(job, k, LoopState(Retained(Some(k), true, false), None), vs[1..]);
      assert w.Some? ==> w.value + [] == w.value;
      assert s.pending.Some? ==> s.pending.value == PendingFold(k, ops);
    } else {
      var next := LoopState(Decision(job, s.retained, v).1, s.pending);
      assert Step(job, s, v) == Stepped([], next);
      RunQuiet(job, s, vs, next);
      SettledRest(job, k, next, vs[1..]);
      assert s.pending.Some? ==> s.pending.value == PendingFold(k, ops);
    }
  }

  /** An operand that is not held back is written, and the rest follows under it. */
  lemma FormOperand(job: Job, k: Key, live: bool, v: Version, us: seq<Version>)
    requires !job.folding && v.entry.Operand?
    ensures SettledForm(job, k, live, [v] + us) == Prepend([v], SettledForm(job, k, true, us))
  {
    LeadingConcat([v], us);
    var n := LeadingOperands(us);
    assert n < |us| ==> ([v] + us)[n + 1] == us[n];
    assert [v] + us[..n] + us[n..] == [v] + us;
    if n < |us| { assert [v] + us[..n] + [us[n]] == [v] + (us[..n] + [us[n]]); }
  }

  lemma {:induction false} FormHeld(job: Job, k: Key, s: LoopState, vs: seq<Version>)
    requires Settling(job, s, k) && job.folding && vs != [] && !Masked(job, vs[0]) && vs[0].key == k
    requires vs[0].entry.Operand? && vs[0].seqno <= job.oldest
    ensures var next := LoopState(Retained(Some(k), false, true), Some(PendingFold(k, Suffix(s) + [vs[0]])));
            && Settling(job, next, k) && Live(next, k) && Run(job, s, vs) == Run(job, next, vs[1..])
            && SettledForm(job, k, Live(s, k), Suffix(s) + Unmasked(job, vs)) ==
               SettledForm(job, k, true, Suffix(next) + Unmasked(job, vs[1..]))
  {
    hide SettledForm, Step, Run;
    var v, us := vs[0], Unmasked(job, vs[1..]);
    var next := LoopState(Retained(Some(k), false, true), Some(PendingFold(k, Suffix(s) + [v])));
    OperandStep(job, k, s, v);
    RunQuiet(job, s, vs, next);
    assert Unmasked(job, vs) == [v] + us;
    assert Suffix(s) + ([v] + us) == Suffix(next) + us;
    assert (Suffix(next) + us)[0] == Suffix(next)[0];
    FormLive(job, k, Suffix(next) + us, Live(s, k));
  }

  lemma {:induction false} FormWritten(job: Job, k: Key, s: LoopState, vs: seq<Version>)
    requires Settling(job, s, k) && !job.folding && vs != [] && !Masked(job, vs[0]) && vs[0].key == k
    requires vs[0].entry.Operand? && vs[0].seqno <= job.oldest
    ensures var next := LoopState(Retained(Some(k), false, true), None);
            && Settling(job, next, k) && Live(next, k)
            && Run(job, s, vs) == Prepend([vs[0]], Run(job, next, vs[1..]))
            && SettledForm(job, k, Live(s, k), Suffix(s) + Unmasked(job, vs)) ==
               Prepend([vs[0]], SettledForm(job, k, true, Suffix(next) + Unmasked(job, vs[1..])))
  {
    hide SettledForm, Step;
    var v, us := vs[0], Unmasked(job, vs[1..]);
    OperandStep(job, k, s, v);
    FormOperand(job, k, Live(s, k), v, us);
    assert Unmasked(job, vs) == [v] + us;
    assert Suffix(s) == [] && [] + us == us && [] + ([v] + us) == [v] + us;
  }

  /** What the loop writes for settled versions. */
  lemma {:induction false} SettledWritten(job: Job, k: Key, s: LoopState, vs: seq<Version>)
    requires OneKey(vs, k) && Settling(job, s, k) && (forall i :: 0 <= i < |vs| ==> vs[i].seqno <= job.oldest)
    ensures Run(job, s, vs) == SettledForm(job, k, Live(s, k), Suffix(s) + Unmasked(job, vs))
    decreases |vs|
  {
    hide SettledForm, Run, Settling, Live;
    if vs == [] || Masked(job, vs[0]) {
      assert Settling(job, s, k) ==> InKey(job, s, k) by { Settles(job, s, k); }
      MaskedRest(job, k, s, vs);
      FormEnds(job, k, s);
      assert Suffix(s) + [] == Suffix(s);
    } else if !vs[0].entry.Operand? {
      FormBase(job, k, s, vs);
    } else if job.folding {
      FormHeld(job, k, s, vs);
      SettledWritten(job, k, LoopState(Retained(Some(k), false, true), Some(PendingFold(k, Suffix(s) + [vs[0]]))),
          vs[1..]);
    } else {
      FormWritten(job, k, s, vs);
      SettledWritten(job, k, LoopState(Retained(Some(k), false, true), None), vs[1..]);
    }
  }

  lemma Settles(job: Job, s: LoopState, k: Key)
    requires Settling(job, s, k)
    ensures InKey(job, s, k)
  {
  }

  /** Under an operand of its own, what is newer does not matter. */
  lemma FormLive(job: Job, k: Key, us: seq<Version>, live: bool)
    requires us != [] && us[0].entry.Operand?
    ensures SettledForm(job, k, live, us) == SettledForm(job, k, true, us)
  {
    assert LeadingOperands(us) > 0;
  }

  // ---- the whole key ----------------------------------------------------------------------------

  lemma RecentLive(job: Job, k: Key, s: LoopState, v: Version)
    requires Undecided(s, k) && v.key == k && !Masked(job, v) && v.seqno > job.oldest
    ensures Live(Step(job, s, v).next, k) == if DropsExpired(job, v.entry) then Live(s, k) else v.entry.Operand?
  {
  }

  /** What follows the newer versions `recent`: the last of them, or the state before. */
  predicate LiveAfter(s: LoopState, k: Key, recent: seq<Version>)
  {
    if recent == [] then Live(s, k) else EndsInOperand(recent)
  }

  lemma LiveStep(job: Job, k: Key, s: LoopState, v: Version, rest: seq<Version>)
    requires Undecided(s, k) && v.key == k && !Masked(job, v) && v.seqno > job.oldest
    ensures var head := if DropsExpired(job, v.entry) then [] else [v];
            LiveAfter(s, k, head + rest) == LiveAfter(Step(job, s, v).next, k, rest)
  {
    hide Step;
    RecentLive(job, k, s, v);
  }

  lemma {:induction false} RecentHeadForm(job: Job, k: Key, s: LoopState, vs: seq<Version>)
    requires vs != [] && Undecided(s, k) && vs[0].key == k && !Masked(job, vs[0]) && vs[0].seqno > job.oldest
    ensures var i := RecentCount(job, vs[1..]);
            var head := if DropsExpired(job, vs[0].entry) then [] else [vs[0]];
            var next := Step(job, s, vs[0]).next;
            && Undecided(next, k) && Run(job, s, vs) == Prepend(head, Run(job, next, vs[1..]))
            && RecentCount(job, vs) == i + 1 && vs[i + 1..] == vs[1..][i..]
            && KeptRecent(job, vs[..i + 1]) == head + KeptRecent(job, vs[1..][..i])
  {
    hide Step;
    RecentStep(job, k, s, vs[0]);
    var i := RecentCount(job, vs[1..]);
    assert vs[..i + 1][1..] == vs[1..][..i];
  }

  /** Newer versions are written but for expired puts, and the rest is settled. */
  lemma {:induction false} RecentWritten(job: Job, k: Key, s: LoopState, vs: seq<Version>)
    requires OneKey(vs, k) && Undecided(s, k) && (job.mask(k).Some? ==> job.mask(k).value <= job.oldest)
    ensures var i := RecentCount(job, vs);
            var recent := KeptRecent(job, vs[..i]);
            Run(job, s, vs) == Prepend(recent, SettledForm(job, k, LiveAfter(s, k, recent), Unmasked(job, vs[i..])))
    decreases |vs|
  {
    hide SettledForm, LiveAfter, Run, Unmasked;
    if vs == [] || vs[0].seqno <= job.oldest {
      SettledOnly(job, k, s, vs);
    } else {
      var i := RecentCount(job, vs[1..]);
      var head := if DropsExpired(job, vs[0].entry) then [] else [vs[0]];
      RecentHeadForm(job, k, s, vs);
      var next := Step(job, s, vs[0]).next;
      RecentWritten(job, k, next, vs[1..]);
      var rest := KeptRecent(job, vs[1..][..i]);
      LiveStep(job, k, s, vs[0], rest);
      PrependTwice(head, rest, SettledForm(job, k, LiveAfter(next, k, rest), Unmasked(job, vs[1..][i..])));
    }
  }

  lemma {:induction false} SettledOnly(job: Job, k: Key, s: LoopState, vs: seq<Version>)
    requires OneKey(vs, k) && Undecided(s, k) && (vs != [] ==> vs[0].seqno <= job.oldest)
    ensures RecentCount(job, vs) == 0 && KeptRecent(job, vs[..0]) == []
    ensures Run(job, s, vs) == Prepend([], SettledForm(job, k, LiveAfter(s, k, []), Unmasked(job, vs[0..])))
  {
    hide SettledForm, Run;
    assert vs[0..] == vs;
    SettledWritten(job, k, s, vs);
    var r := Run(job, s, vs);
    assert [] + Unmasked(job, vs) == Unmasked(job, vs) && (r.Some? ==> [] + r.value == r.value);
  }

  lemma PrependTwice(a: seq<Version>, b: seq<Version>, e: Emitted)
    ensures Prepend(a, Prepend(b, e)) == Prepend(a + b, e)
  {
    if e.Some? { assert a + (b + e.value) == a + b + e.value; }
  }

  /** The loop writes exactly the closed form of each key's versions, and fails exactly when
      its fold fails. */
  lemma {:induction false} KeyWritten(job: Job, k: Key, s: LoopState, vs: seq<Version>)
    requires OneKey(vs, k) && s.pending == None && s.retained.lastKey != Some(k)
    requires job.mask(k).Some? ==> job.mask(k).value <= job.oldest
    ensures Run(job, s, vs) == KeyForm(job, k, vs)
  {
    RecentWritten(job, k, s, vs);
  }

  // ---- what the closed form reclaims --------------------------------------------------------------

  /** Settled versions as they are written: operands, then at most one base. At the bottom no
      delete is left but one under a written operand, and nothing expired; and there a folding
      job leaves one version, or operands over a put that expires later. */
  ghost predicate Compact(job: Job, live: bool, w: seq<Version>)
  {
    && (forall i :: 0 <= i < |w| - 1 ==> w[i].entry.Operand?)
    && (job.bottom ==> forall i :: 0 <= i < |w| ==> !DropsExpired(job, w[i].entry))
    && (job.bottom && w != [] && w[|w| - 1].entry.Tombstone? ==> live || |w| > 1)
    && (job.bottom && job.folding && w != [] ==>
          !w[|w| - 1].entry.Operand? && (|w| > 1 ==> w[|w| - 1].entry.Put? && w[|w| - 1].entry.ttl != 0))
  }

  lemma FormCompact(job: Job, k: Key, live: bool, us: seq<Version>)
    requires SettledForm(job, k, live, us).Some?
    ensures Compact(job, live, SettledForm(job, k, live, us).value)
  {
  }

  /** Everything written for settled versions is at the sequence of one of them. */
  lemma FormSource(job: Job, k: Key, live: bool, us: seq<Version>, i: nat) returns (j: nat)
    requires SettledForm(job, k, live, us).Some? && i < |SettledForm(job, k, live, us).value|
    ensures var w := SettledForm(job, k, live, us).value;
            j < |us| && w[i].seqno == us[j].seqno && (w[i].entry.Operand? ==> w[i] == us[j])
  {
    var w, n := SettledForm(job, k, live, us).value, LeadingOperands(us);
    j := if w == us[..n] || (n < |us| && w == us[..n] + [us[n]]) then i else 0;
  }

  lemma {:induction false} RecentIn(job: Job, vs: seq<Version>, i: nat)
    requires i < |KeptRecent(job, vs)|
    ensures KeptRecent(job, vs)[i] in vs && !DropsExpired(job, KeptRecent(job, vs)[i].entry)
  {
    if !DropsExpired(job, vs[0].entry) && i == 0 {
    } else {
      RecentIn(job, vs[1..], if DropsExpired(job, vs[0].entry) then i else i - 1);
    }
  }

  /** What a job may leave of one key. */
  ghost predicate Tight(job: Job, k: Key, out: seq<Version>)
  {
    && (forall i :: 0 <= i < |out| && out[i].seqno <= job.oldest && !out[i].entry.Operand? ==> i == |out| - 1)
    && (forall i :: 0 <= i < |out| && out[i].seqno <= job.oldest && job.mask(k).Some? ==>
          job.mask(k).value <= out[i].seqno)
    && (job.bottom ==> forall i :: 0 <= i < |out| ==> !DropsExpired(job, out[i].entry))
    && (job.bottom ==> forall i :: 0 <= i < |out| && out[i].seqno <= job.oldest && out[i].entry.Tombstone? ==>
          i > 0 && out[i - 1].entry.Operand?)
    && (job.bottom && job.folding ==>
        forall i :: 0 <= i < |out| && out[i].seqno <= job.oldest && out[i].entry.Operand? ==>
          out[|out| - 1].entry.Put? && out[|out| - 1].entry.ttl != 0)
  }

  /** A settled version of the output belongs to the settled part. */
  lemma FormSplit(job: Job, k: Key, vs: seq<Version>, out: seq<Version>) returns (recent: seq<Version>, w: seq<Version>)
    requires OneKey(vs, k) && KeyForm(job, k, vs) == Some(out)
    ensures out == recent + w && Compact(job, EndsInOperand(recent), w)
    ensures forall i :: 0 <= i < |recent| ==> recent[i].seqno > job.oldest && !DropsExpired(job, recent[i].entry)
    ensures forall i :: 0 <= i < |w| ==>
              w[i].seqno <= job.oldest && (job.mask(k).Some? ==> job.mask(k).value <= w[i].seqno)
    ensures forall v :: v in out && v.entry.Operand? ==> v in vs
  {
    hide SettledForm, Compact;
    var c := RecentCount(job, vs);
    recent := KeptRecent(job, vs[..c]);
    var us := Unmasked(job, vs[c..]);
    w := SettledForm(job, k, EndsInOperand(recent), us).value;
    FormCompact(job, k, EndsInOperand(recent), us);
    forall i | 0 <= i < |recent|
      ensures recent[i].seqno > job.oldest && !DropsExpired(job, recent[i].entry) && recent[i] in vs
    {
      RecentIn(job, vs[..c], i);
    }
    forall i | 0 <= i < |w|
      ensures w[i].seqno <= job.oldest && (job.mask(k).Some? ==> job.mask(k).value <= w[i].seqno)
      ensures w[i].entry.Operand? ==> w[i] in vs
    {
      var j := FormSource(job, k, EndsInOperand(recent), us, i);
      PointsMember(us, k, j);
      UnmaskedPoints(job, k, vs[c..], us[j].seqno);
      assert us[j] == vs[c + j];
    }
  }

  /** Whatever a job writes for a key is tight. */
  lemma {:induction false} KeyReclaims(job: Job, k: Key, s: LoopState, vs: seq<Version>, out: seq<Version>)
    requires OneKey(vs, k) && s.pending == None && s.retained.lastKey != Some(k)
    requires job.mask(k).Some? ==> job.mask(k).value <= job.oldest
    requires Run(job, s, vs) == Some(out)
    ensures Tight(job, k, out) && forall v :: v in out && v.entry.Operand? ==> v in vs
  {
    hide Run, KeyForm, Tight, Compact;
    KeyWritten(job, k, s, vs);
    var recent, w := FormSplit(job, k, vs, out);
    TightJoin(job, k, recent, w);
  }

  /** Newer versions and compact settled ones are tight together. */
  lemma TightJoin(job: Job, k: Key, recent: seq<Version>, w: seq<Version>)
    requires Compact(job, EndsInOperand(recent), w)
    requires forall i :: 0 <= i < |recent| ==> recent[i].seqno > job.oldest && !DropsExpired(job, recent[i].entry)
    requires forall i :: 0 <= i < |w| ==>
               w[i].seqno <= job.oldest && (job.mask(k).Some? ==> job.mask(k).value <= w[i].seqno)
    ensures Tight(job, k, recent + w)
  {
    hide DropsExpired;
    var out, n := recent + w, |recent|;
    forall i | 0 <= i < |out|
      ensures out[i] == if i < n then recent[i] else w[i - n]
      ensures out[i].seqno <= job.oldest ==> i >= n
    {
    }
    if w != [] { TightEnd(job, recent, w); }
  }

  lemma TightEnd(job: Job, recent: seq<Version>, w: seq<Version>)
    requires w != [] && Compact(job, EndsInOperand(recent), w)
    ensures (recent + w)[|recent + w| - 1] == w[|w| - 1]
    ensures job.bottom && w[|w| - 1].entry.Tombstone? ==>
              |recent + w| > 1 && (recent + w)[|recent + w| - 2].entry.Operand?
  {
  }

  // ---- failure --------------------------------------------------------------------------------------

  /** The key whose fold fails a step: the one that was pending, or the one that is read. */
  lemma StepFails(job: Job, s: LoopState, vs: seq<Version>) returns (k: Key)
    requires vs != [] && Sorted(vs) && StateOk(job, s) && Past(s, vs) && Step(job, s, vs[0]).Failed?
    ensures Run(job, Project(s, k), Only(vs, k)) == None
  {
    var v := vs[0];
    if s.pending.Some? && s.pending.value.key != v.key && FlushPending(job, s.pending).None? {
      k := s.pending.value.key;
      forall i | 0 <= i < |vs| ensures vs[i].key > k { if i > 0 { assert Precedes(vs[0], vs[i]); } }
      OnlyNone(vs, k);
    } else {
      k := v.key;
      StepFailsInKey(job, s, v);
    }
  }

  lemma StepFailsInKey(job: Job, s: LoopState, v: Version)
    requires StateOk(job, s) && Step(job, s, v).Failed?
    requires s.pending.Some? && s.pending.value.key != v.key ==> FlushPending(job, s.pending).Some?
    ensures Step(job, Project(s, v.key), v).Failed?
  {
    DecisionSame(job, s, v);
  }

  /** If the loop fails, it fails on some key alone. */
  lemma {:induction false} RunFails(job: Job, s: LoopState, vs: seq<Version>) returns (k: Key)
    requires Sorted(vs) && StateOk(job, s) && Past(s, vs) && Run(job, s, vs) == None
    ensures Run(job, Project(s, k), Only(vs, k)) == None
    decreases |vs|
  {
    hide Step, FlushPending;
    if vs == [] {
      k := if s.pending.Some? then s.pending.value.key else 0.0;
    } else if Step(job, s, vs[0]).Failed? {
      k := StepFails(job, s, vs);
    } else {
      var v, step := vs[0], Step(job, s, vs[0]);
      if |vs| > 1 { assert Precedes(vs[0], vs[1]); }
      StepSame(job, s, v, step, Step(job, Project(s, v.key), v));
      k := RunFails(job, step.next, vs[1..]);
      RunFailsTail(job, s, vs, k);
    }
  }

  lemma {:induction false} RunFailsTail(job: Job, s: LoopState, vs: seq<Version>, k: Key)
    requires vs != [] && Sorted(vs) && StateOk(job, s) && Past(s, vs) && Step(job, s, vs[0]).Stepped?
    requires Run(job, Project(Step(job, s, vs[0]).next, k), Only(vs[1..], k)) == None
    ensures Run(job, Project(s, k), Only(vs, k)) == None
  {
    hide Step, FlushPending;
    var v, step := vs[0], Step(job, s, vs[0]);
    if v.key == k {
      StepSame(job, s, v, step, Step(job, Project(s, k), v));
      assert Only(vs, k)[1..] == Only(vs[1..], k);
    } else {
      StepOther(job, s, v, k);
      if (s.pending.Some? && s.pending.value.key == k) || s.retained.lastKey == Some(k) {
        forall i | 0 <= i < |vs[1..]| ensures vs[1..][i].key != k { assert Precedes(vs[0], vs[i + 1]); }
        OnlyNone(vs[1..], k);
        NothingFlushed(job, step.next, k);
      } else {
        assert Project(step.next, k) == Project(s, k);
      }
    }
  }

  lemma {:induction false} NothingFlushed(job: Job, s: LoopState, k: Key)
    requires s.pending.Some? ==> s.pending.value.key != k
    ensures Run(job, Project(s, k), []) == Some([])
  {
  }

  /** A merge fails exactly when the closed form of some key does: the operator refuses its
      operands. */
  lemma {:induction false} FailsExactly(job: Job, inputs: seq<Table>)
    requires FrozenOver(job, inputs)
    ensures Run(job, START, Merged(AllPoints(inputs))) == None <==>
            exists k: Key :: KeyForm(job, k, Only(Merged(AllPoints(inputs)), k)) == None
  {
    hide AllPoints, KeyForm, Merged, Run;
    var stream := Merged(AllPoints(inputs));
    MergedSorted(AllPoints(inputs));
    forall k: Key ensures Run(job, START, Only(stream, k)) == KeyForm(job, k, Only(stream, k)) {
      OnlyOneKey(stream, k);
      assert NewestAtMost(job.mask(k), AllCovers(inputs, k), job.oldest);
      KeyWritten(job, k, START, Only(stream, k));
    }
    assert forall k: Key :: Project(START, k) == START;
    if Run(job, START, stream) == None {
      var k := RunFails(job, START, stream);
      assert KeyForm(job, k, Only(stream, k)) == None;
    } else {
      forall k: Key ensures Run(job, START, Only(stream, k)).Some? {
        RunProjects(job, START, stream, k, Run(job, START, stream).value);
      }
    }
  }

  // ---- whole jobs ---------------------------------------------------------------------------------

  /** A job writes the closed form of every key, and leaves every key tight. */
  lemma {:induction false} JobReclaims(job: Job, inputs: seq<Table>, outputs: seq<Table>, k: Key)
    requires FrozenOver(job, inputs) && JobResult(job, inputs, outputs)
    ensures Some(Only(AllPoints(outputs), k)) == KeyForm(job, k, Only(Merged(AllPoints(inputs)), k))
    ensures Tight(job, k, Only(AllPoints(outputs), k)) && OneKey(Only(Merged(AllPoints(inputs)), k), k)
    ensures forall v :: v in Only(AllPoints(outputs), k) && v.entry.Operand? ==> v in Only(Merged(AllPoints(inputs)), k)
  {
    hide AllPoints, KeyForm, Tight;
    var stream, written := Merged(AllPoints(inputs)), AllPoints(outputs);
    MergedSorted(AllPoints(inputs));
    OnlyOneKey(stream, k);
    RunProjects(job, START, stream, k, written);
    assert Project(START, k) == START;
    KeyWritten(job, k, START, Only(stream, k));
    KeyReclaims(job, k, START, Only(stream, k), Only(written, k));
  }

  /** A bottom job over a key without operands leaves no settled delete of it. */
  lemma {:induction false} DeletesLeave(job: Job, inputs: seq<Table>, outputs: seq<Table>, k: Key, n: nat)
    requires FrozenOver(job, inputs) && JobResult(job, inputs, outputs) && job.bottom
    requires forall m :: m in PointsOf(AllPoints(inputs), k) ==> !PointsOf(AllPoints(inputs), k)[m].Operand?
    requires n in PointsOf(AllPoints(outputs), k) && n <= job.oldest
    ensures !PointsOf(AllPoints(outputs), k)[n].Tombstone?
  {
    hide AllPoints, Merged, Only, PointsOf;
    var vs, out := Only(Merged(AllPoints(inputs)), k), Only(AllPoints(outputs), k);
    MergedPoints(AllPoints(inputs), k);
    OnlyPoints(Merged(AllPoints(inputs)), k);
    OnlyPoints(AllPoints(outputs), k);
    JobReclaims(job, inputs, outputs, k);
    var i := PointsWitness(out, k, n);
    if i > 0 && out[i - 1].entry.Operand? {
      assert out[i - 1] in vs;
      var j :| 0 <= j < |vs| && vs[j] == out[i - 1];
      OneEntry(vs, k, j);
    }
  }

  lemma {:induction false} OneEntry(vs: seq<Version>, k: Key, i: nat)
    requires OneKey(vs, k) && i < |vs|
    ensures vs[i].seqno in PointsOf(vs, k) && PointsOf(vs, k)[vs[i].seqno] == vs[i].entry
  {
    PointsMember(vs, k, i);
    var j := PointsWitness(vs, k, vs[i].seqno);
  }
}
