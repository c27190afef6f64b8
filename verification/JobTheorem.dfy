/** The compaction theorem for a whole job: inputs and outputs as sets of tables. */
module JobTheorem {
  import opened Semantics
  import opened Rewrite
  import opened Preservation
  import opened KeyTheorem
  import opened Tables
  import opened MergeInputs
  import opened RunSpan
  import opened Projection

  /** What some tables together say about `k`. */
  function HistoryOf(ts: seq<Table>, k: Key): History
  {
    Overlay(PointsOf(AllPoints(ts), k), AllCovers(ts, k))
  }

  /** The outputs of a job, whatever files and spans they were cut into. */
  ghost predicate JobResult(job: Job, inputs: seq<Table>, outputs: seq<Table>)
  {
    && Run(job, START, Merged(AllPoints(inputs))) == Some(AllPoints(outputs))
    && forall k: Key :: AllCovers(outputs, k) == KeptCovers(job, k, AllCovers(inputs, k))
  }

  /** No range delete shares its sequence with a point write of a key it covers. */
  ghost predicate DistinctSeqnos(ts: seq<Table>, k: Key)
  {
    PointsOf(AllPoints(ts), k).Keys !! AllCovers(ts, k)
  }

  /** Everything the inputs know about `k` is newer than `below`. */
  ghost predicate NewerThan(ts: seq<Table>, k: Key, below: History, bound: int)
  {
    && -1 <= bound
    && (forall n :: n in below ==> n <= bound)
    && (forall n :: n in HistoryOf(ts, k) ==> n > bound)
  }

  ghost predicate CleanKey(job: Job, inputs: seq<Table>, k: Key)
  {
    Clean(job, k, AllPoints(inputs), AllCovers(inputs, k))
  }

  /** A job, one key of it, and the older data under it. */
  ghost predicate JobOver(job: Job, inputs: seq<Table>, outputs: seq<Table>, k: Key, below: History, bound: int)
  {
    && FrozenOver(job, inputs) && JobResult(job, inputs, outputs) && Associative(job.op)
    && DistinctSeqnos(inputs, k) && NewerThan(inputs, k, below, bound)
    && (job.bottom ==> below == map[])
  }

  /** A job is a run of the key rewrite on every key. */
  lemma {:induction false} JobIsKeyRun(job: Job, inputs: seq<Table>, outputs: seq<Table>, k: Key, below: History,
                                       bound: int)
    requires JobOver(job, inputs, outputs, k, below, bound)
    ensures var vs, out := Only(Merged(AllPoints(inputs)), k), Only(AllPoints(outputs), k);
            && KeyRun(job, k, START, vs, AllCovers(inputs, k), below, bound, out)
            && PointsOf(vs, k) == PointsOf(AllPoints(inputs), k)
            && Before(k, vs, AllCovers(inputs, k), below) == below + HistoryOf(inputs, k)
            && After(job, k, out, AllCovers(inputs, k), below) == below + HistoryOf(outputs, k)
  {
    hide AllPoints;
    var stream, written := Merged(AllPoints(inputs)), AllPoints(outputs);
    MergedSorted(AllPoints(inputs));
    MergedPoints(AllPoints(inputs), k);
    OnlyPoints(stream, k);
    OnlyPoints(written, k);
    OnlyOneKey(stream, k);
    RunProjects(job, START, stream, k, written);
    assert Project(START, k) == START;
    forall n | n in PointsOf(AllPoints(inputs), k) || n in AllCovers(inputs, k) ensures n > bound {
      assert n in HistoryOf(inputs, k);
    }
  }

  /** A clean job changes no read of `k` at or above `oldest`, over any older data and
      under any newer operands. */
  lemma {:induction false} JobPreserves(job: Job, inputs: seq<Table>, outputs: seq<Table>, k: Key, below: History,
                                        bound: int, r: Reader, n: nat)
    requires JobOver(job, inputs, outputs, k, below, bound) && CleanKey(job, inputs, k)
    requires r.op == job.op && r.key == k && r.now >= job.now && n >= job.oldest
    ensures Equiv(r, Walk(below + HistoryOf(inputs, k), n), Walk(below + HistoryOf(outputs, k), n))
  {
    JobIsKeyRun(job, inputs, outputs, k, below, bound);
    var vs, out := Only(Merged(AllPoints(inputs)), k), Only(AllPoints(outputs), k);
    forall q: nat ensures !Exposes(job, k, vs, AllCovers(inputs, k), q) {
      assert !Exposes(job, k, AllPoints(inputs), AllCovers(inputs, k), q);
    }
    KeyPreserved(job, k, START, vs, AllCovers(inputs, k), below, bound, out, r, n);
  }

  /** Exactly the clean jobs preserve every read of `k`. */
  lemma JobExact(job: Job, inputs: seq<Table>, outputs: seq<Table>, k: Key, below: History, bound: int)
    requires JobOver(job, inputs, outputs, k, below, bound)
    ensures CleanKey(job, inputs, k) <==>
            forall r: Reader, n: nat :: ReaderOf(r, job, k) && n >= job.oldest ==>
              Read(r, below + HistoryOf(inputs, k), n) == Read(r, below + HistoryOf(outputs, k), n)
  {
    JobIsKeyRun(job, inputs, outputs, k, below, bound);
    var vs, out := Only(Merged(AllPoints(inputs)), k), Only(AllPoints(outputs), k);
    KeyExact(job, k, START, vs, AllCovers(inputs, k), below, bound, out);
    assert CleanKey(job, inputs, k) <==> Clean(job, k, vs, AllCovers(inputs, k)) by {
      assert forall q: nat :: Exposes(job, k, vs, AllCovers(inputs, k), q) <==>
          Exposes(job, k, AllPoints(inputs), AllCovers(inputs, k), q);
    }
  }

  /** A job that drops no expired put is clean: any job above the bottom, and any bottom
      job whose inputs hold nothing expired. */
  lemma {:induction false} UnexpiredClean(job: Job, inputs: seq<Table>, k: Key)
    requires !job.bottom || forall i :: 0 <= i < |AllPoints(inputs)| ==> !DropsExpired(job, AllPoints(inputs)[i].entry)
    ensures CleanKey(job, inputs, k)
  {
    forall q: nat ensures !Exposes(job, k, AllPoints(inputs), AllCovers(inputs, k), q) {
      if q in PointsOf(AllPoints(inputs), k) { var i := PointsWitness(AllPoints(inputs), k, q); }
    }
  }

  /** A job writes points only at sequences its inputs held points at. */
  lemma {:induction false} JobPoints(job: Job, inputs: seq<Table>, outputs: seq<Table>, k: Key, n: nat)
    requires FrozenOver(job, inputs) && JobResult(job, inputs, outputs)
    requires n in PointsOf(AllPoints(outputs), k)
    ensures n in PointsOf(AllPoints(inputs), k)
  {
    var stream, written := Merged(AllPoints(inputs)), AllPoints(outputs);
    MergedSorted(AllPoints(inputs));
    MergedPoints(AllPoints(inputs), k);
    OnlyPoints(stream, k);
    OnlyPoints(written, k);
    OnlyOneKey(stream, k);
    RunProjects(job, START, stream, k, written);
    assert Project(START, k) == START;
    RunSource(job, k, START, Only(stream, k), Only(written, k), n);
    UnmaskedPoints(job, k, Only(stream, k), n);
  }

  /** A job writes only at sequences its inputs held. */
  lemma JobShrinks(job: Job, inputs: seq<Table>, outputs: seq<Table>, k: Key, n: nat)
    requires FrozenOver(job, inputs) && JobResult(job, inputs, outputs)
    requires n in HistoryOf(outputs, k)
    ensures n in HistoryOf(inputs, k)
  {
    if n in PointsOf(AllPoints(outputs), k) { JobPoints(job, inputs, outputs, k, n); }
  }
}
