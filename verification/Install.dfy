/** What a job's outputs do to the level they are installed in. */
module Install {
  import opened Semantics
  import opened Rewrite
  import opened Tables
  import opened RunSpan
  import opened JobTheorem
  import opened Levels
  import opened Sources

  /** Every table of `a` lies wholly below every table of `b`. */
  ghost predicate AllBelow(a: seq<Table>, b: seq<Table>)
  {
    forall x, y :: x in a && y in b ==> SpanBelow(x, y)
  }

  /** One of the two groups lies wholly below the other. */
  ghost predicate Beside(a: seq<Table>, b: seq<Table>)
  {
    AllBelow(a, b) || AllBelow(b, a)
  }

  /** An output says nothing at a sequence no input holds. */
  lemma OutputFrom(job: Job, inputs: seq<Table>, outputs: seq<Table>, o: Table, k: Key, n: nat) returns (y: Table)
    requires FrozenOver(job, inputs) && JobResult(job, inputs, outputs)
    requires o in outputs && n in Says(OnDisk(o), k)
    ensures y in inputs && n in Says(OnDisk(y), k)
  {
    HistoryHas(outputs, o, k, n);
    JobShrinks(job, inputs, outputs, k, n);
    y := HistoryWhere(inputs, k, n);
  }

  lemma OutputTouches(job: Job, inputs: seq<Table>, outputs: seq<Table>, o: Table, k: Key) returns (y: Table)
    requires FrozenOver(job, inputs) && JobResult(job, inputs, outputs)
    requires o in outputs && Touches(o, k)
    ensures y in inputs && Touches(y, k)
  {
    SaysTouches(o, k);
    var n :| n in Says(OnDisk(o), k);
    y := OutputFrom(job, inputs, outputs, o, k, n);
    SaysTouches(y, k);
  }

  /** A table below every input is below every output. */
  lemma BelowOutputs(job: Job, inputs: seq<Table>, outputs: seq<Table>, x: Table, o: Table)
    requires FrozenOver(job, inputs) && JobResult(job, inputs, outputs)
    requires o in outputs && Stamped(o) && AllBelow([x], inputs)
    ensures SpanBelow(x, o)
  {
    TouchesSpanMin(o);
    var y := OutputTouches(job, inputs, outputs, o, SpanMin(o));
    assert x in [x] && SpanBelow(x, y);
    SpanBounds(y, SpanMin(o));
  }

  /** A table above every input is above every output. */
  lemma AboveOutputs(job: Job, inputs: seq<Table>, outputs: seq<Table>, x: Table, o: Table)
    requires FrozenOver(job, inputs) && JobResult(job, inputs, outputs)
    requires o in outputs && Stamped(o) && AllBelow(inputs, [x])
    ensures SpanBelow(o, x)
  {
    if o.points != [] {
      TouchesMaxKey(o);
      var y := OutputTouches(job, inputs, outputs, o, o.maxKey);
      assert x in [x];
      BelowTouched(y, x, o.maxKey);
    }
    if HasRanges(o) && RangeMax(o) > SpanMin(x) {
      var last := |o.frags| - 1;
      var k := if o.frags[last].start < SpanMin(x) then SpanMin(x) else o.frags[last].start;
      FragmentTouches(o, last, k);
      var y := OutputTouches(job, inputs, outputs, o, k);
      assert x in [x];
      BelowTouched(y, x, k);
    }
  }

  lemma BesideOutputs(job: Job, inputs: seq<Table>, outputs: seq<Table>, x: Table, o: Table)
    requires FrozenOver(job, inputs) && JobResult(job, inputs, outputs)
    requires o in outputs && Stamped(o) && Beside([x], inputs)
    ensures Apart(x, o)
  {
    if AllBelow([x], inputs) {
      BelowOutputs(job, inputs, outputs, x, o);
    } else {
      AboveOutputs(job, inputs, outputs, x, o);
    }
  }

  /** A group of tables beside the inputs is beside every output. */
  lemma OutputBeside(job: Job, inputs: seq<Table>, outputs: seq<Table>, others: seq<Table>, o: Table)
    requires FrozenOver(job, inputs) && JobResult(job, inputs, outputs)
    requires o in outputs && Stamped(o) && Beside(inputs, others)
    ensures Beside([o], others)
  {
    if AllBelow(inputs, others) {
      forall y | y in others ensures SpanBelow(o, y) { AboveOutputs(job, inputs, outputs, y, o); }
    } else {
      forall y | y in others ensures SpanBelow(y, o) { BelowOutputs(job, inputs, outputs, y, o); }
    }
  }

  /** Installing keeps the target a level of key-disjoint tables in key order. */
  lemma {:induction false} InstallKeepsLevel(job: Job, inputs: seq<Table>, outputs: seq<Table>, kept: seq<Table>)
    requires FrozenOver(job, inputs) && JobResult(job, inputs, outputs) && LevelOk(outputs)
    requires LevelOk(kept) && forall x :: x in kept ==> Beside([x], inputs)
    ensures LevelOk(SortByMinKey(kept + outputs))
  {
    var all := kept + outputs;
    forall i, j | 0 <= i < j < |all| ensures Apart(all[i], all[j]) {
      if i < |kept| <= j {
        assert all[i] in kept && all[j] in outputs;
        BesideOutputs(job, inputs, outputs, all[i], all[j]);
      }
    }
    SortLevel(all);
  }

  lemma {:induction false} WithoutLevel(level: seq<Table>, ids: set<nat>)
    requires LevelOk(level)
    ensures LevelOk(Without(level, ids))
  {
    var r := Without(level, ids);
    forall i, j | 0 <= i < j < |r| ensures SpanBelow(r[i], r[j]) {
      var a, b := WithoutPicks(level, ids, i, j);
    }
    forall i | 0 <= i < |r| ensures WellFormed(r[i]) && Tight(r[i]) {
      var a, b := WithoutPicks(level, ids, i, i);
    }
  }

  /** Tables apart from each other meet no common key. */
  lemma ApartTouch(x: Table, y: Table, k: Key)
    requires WellFormed(x) && WellFormed(y) && Apart(x, y)
    ensures !Touches(x, k) || !Touches(y, k)
  {
    if Touches(x, k) && Touches(y, k) {
      SpanBounds(x, k);
      SpanBounds(y, k);
      if SpanBelow(x, y) { BelowTouched(x, y, k); } else { BelowTouched(y, x, k); }
    }
  }

  /** Order between tables that meet no key is vacuous. */
  lemma ApartNewer(x: Table, y: Table)
    requires WellFormed(x) && WellFormed(y) && Apart(x, y)
    ensures NewerSource(OnDisk(x), OnDisk(y))
  {
    forall k: Key ensures Says(OnDisk(x), k) == map[] || Says(OnDisk(y), k) == map[] {
      SaysTouches(x, k);
      SaysTouches(y, k);
      ApartTouch(x, y, k);
    }
  }
}
