/** Installing a finished job keeps the invariant, whatever landed meanwhile. */
module EngineFinish {
  import opened Semantics
  import opened Rewrite
  import opened Fragments
  import opened Tables
  import opened RunSpan
  import opened OutputBuilder
  import opened JobTheorem
  import opened Levels
  import opened Sources
  import opened Install
  import opened Engine
  import opened EngineFacts

  /** A job in its place, with its outputs, about to be installed. */
  ghost predicate Finishing(levels: Tree, p: Picked, outputs: seq<Table>)
  {
    && TablesOk(levels) && TreeOrdered(levels) && InPlace(levels, p)
    && FrozenOver(p.job, Inputs(p)) && JobResult(p.job, Inputs(p), outputs) && LevelOk(outputs)
    && FreshlyNamed(levels, outputs)
  }

  function Done(levels: Tree, p: Picked, outputs: seq<Table>): Tree
  {
    InstallTree(levels, p.target, Inputs(p), outputs)
  }

  /** What a span run gives, numbered past every id in use, is a result the engine may
      install. */
  lemma NumberedMayFinish(db: Db, slot: nat, outputs: seq<Table>, nextId: nat, level: nat)
    requires slot < |db.pending| && JobResult(db.pending[slot].job, Inputs(db.pending[slot]), outputs)
    requires LevelOk(outputs)
    requires Numbered(outputs, nextId, level) && forall u :: InTree(db.levels, u) ==> u.id < nextId
    ensures MayFinish(db, slot, outputs)
  {
    hide JobResult, LevelOk, InTree;
    assert forall o :: o in outputs ==> o.id >= nextId;
  }

  lemma InputLive(levels: Tree, p: Picked, y: Table)
    requires InPlace(levels, p) && y in Inputs(p)
    ensures InTree(levels, y)
  {
  }

  /** The install takes out exactly the inputs and puts in exactly the outputs. */
  lemma DoneMembers(levels: Tree, p: Picked, outputs: seq<Table>, i: nat, t: Table)
    requires Finishing(levels, p, outputs) && i < |Done(levels, p, outputs)|
    ensures t in Done(levels, p, outputs)[i] <==>
            (t in LevelAt(levels, i) && t !in Inputs(p)) || (i == p.target && t in outputs)
  {
    InstallMembers(levels, Done(levels, p, outputs), p.target, Inputs(p), outputs, i, t);
    if t in LevelAt(levels, i) && t.id in Ids(Inputs(p)) {
      var y :| y in Inputs(p) && y.id == t.id;
      InputLive(levels, p, y);
      assert InTree(levels, t);
    }
  }

  lemma DoneInTree(levels: Tree, p: Picked, outputs: seq<Table>, t: Table)
    requires Finishing(levels, p, outputs)
    ensures InTree(Done(levels, p, outputs), t) <==> (InTree(levels, t) && t !in Inputs(p)) || t in outputs
  {
    var after := Done(levels, p, outputs);
    if InTree(after, t) {
      var i :| 0 <= i < |after| && t in after[i];
      DoneMembers(levels, p, outputs, i, t);
    }
    if InTree(levels, t) && t !in Inputs(p) {
      var i :| 0 <= i < |levels| && t in levels[i];
      DoneMembers(levels, p, outputs, i, t);
      assert t in after[i];
    }
    if t in outputs {
      DoneMembers(levels, p, outputs, p.target, t);
      assert t in after[p.target];
    }
  }

  // ---- what outputs inherit from inputs -------------------------------------------------

  lemma InputsSeparate(levels: Tree, p: Picked, k: Key)
    requires TablesOk(levels) && TreeOrdered(levels) && InPlace(levels, p)
    ensures Separate(TableSources(Inputs(p)), k)
    ensures forall u :: u in Inputs(p) ==> Distinct(OnDisk(u))
    ensures DistinctSeqnos(Inputs(p), k)
  {
    var ts := Inputs(p);
    forall u | u in ts ensures InTree(levels, u) { InputLive(levels, p, u); }
    forall s, t, n: nat | s in TableSources(ts) && t in TableSources(ts) && n in Says(s, k) && n in Says(t, k)
      ensures s == t
    {
      assert s.table in ts && t.table in ts;
      TablesSeparate(levels, s.table, t.table, k, n);
    }
    forall n | n in PointsOf(AllPoints(ts), k) ensures n !in AllCovers(ts, k) {
      var t := PointsWhere(ts, k, n);
      HistoryValue(ts, t, k, n);
    }
  }

  lemma OutputDistinct(levels: Tree, p: Picked, outputs: seq<Table>, o: Table)
    requires Finishing(levels, p, outputs) && o in outputs
    ensures Distinct(OnDisk(o))
  {
    forall k: Key ensures PointsOf(o.points, k).Keys !! CoversOf(o.frags, k) {
      forall n | n in PointsOf(o.points, k) ensures n !in CoversOf(o.frags, k) {
        PointsHas(outputs, o, k, n);
        JobPoints(p.job, Inputs(p), outputs, k, n);
        InputsSeparate(levels, p, k);
        if n in CoversOf(o.frags, k) { CoversHas(outputs, o, k, n); }
      }
    }
  }

  lemma NewerThanOutput(job: Job, inputs: seq<Table>, outputs: seq<Table>, s: Source, o: Table)
    requires FrozenOver(job, inputs) && JobResult(job, inputs, outputs) && o in outputs
    requires forall y :: y in inputs ==> NewerSource(s, OnDisk(y))
    ensures NewerSource(s, OnDisk(o))
  {
    forall k: Key, m: nat, n: nat | m in Says(s, k) && n in Says(OnDisk(o), k) ensures m > n {
      var y := OutputFrom(job, inputs, outputs, o, k, n);
      assert NewerSource(s, OnDisk(y));
    }
  }

  lemma OutputNewer(job: Job, inputs: seq<Table>, outputs: seq<Table>, o: Table, s: Source)
    requires FrozenOver(job, inputs) && JobResult(job, inputs, outputs) && o in outputs
    requires forall y :: y in inputs ==> NewerSource(OnDisk(y), s)
    ensures NewerSource(OnDisk(o), s)
  {
    forall k: Key, m: nat, n: nat | m in Says(OnDisk(o), k) && n in Says(s, k) ensures m > n {
      var y := OutputFrom(job, inputs, outputs, o, k, m);
      assert NewerSource(OnDisk(y), s);
    }
  }

  /** Everything an input holds is newer than every level under the target. */
  lemma InputAboveLower(levels: Tree, p: Picked, y: Table, b: nat, z: Table)
    requires TreeOrdered(levels) && InPlace(levels, p) && y in Inputs(p) && p.target < b < |levels| && z in levels[b]
    ensures NewerSource(OnDisk(y), OnDisk(z))
  {
  }

  // ---- the tree stays ordered -----------------------------------------------------------

  lemma DoneTables(levels: Tree, p: Picked, outputs: seq<Table>)
    requires Finishing(levels, p, outputs)
    ensures TablesOk(Done(levels, p, outputs))
  {
    var after := Done(levels, p, outputs);
    forall t | InTree(after, t) ensures Stamped(t) && Distinct(OnDisk(t)) {
      DoneInTree(levels, p, outputs, t);
      if t in outputs { OutputDistinct(levels, p, outputs, t); }
    }
    forall t, u | InTree(after, t) && InTree(after, u) && t.id == u.id ensures t == u {
      DoneInTree(levels, p, outputs, t);
      DoneInTree(levels, p, outputs, u);
    }
    forall i | 1 <= i < |after| ensures LevelOk(after[i]) { DoneLevel(levels, p, outputs, i); }
  }

  lemma DoneLevel(levels: Tree, p: Picked, outputs: seq<Table>, i: nat)
    requires Finishing(levels, p, outputs) && 1 <= i < |Done(levels, p, outputs)|
    ensures LevelOk(Done(levels, p, outputs)[i])
  {
    var kept := Without(LevelAt(levels, i), Ids(Inputs(p)));
    WithoutLevel(LevelAt(levels, i), Ids(Inputs(p)));
    if i == p.target {
      forall x | x in kept ensures Beside([x], Inputs(p)) {
        WithoutIn(LevelAt(levels, i), Ids(Inputs(p)), x);
        assert x in Inputs(p) ==> x.id in Ids(Inputs(p));
      }
      InstallKeepsLevel(p.job, Inputs(p), outputs, kept);
    }
  }

  lemma DonePair(levels: Tree, p: Picked, outputs: seq<Table>, a: nat, b: nat, x: Table, y: Table)
    requires Finishing(levels, p, outputs) && a < b < |Done(levels, p, outputs)|
    requires x in Done(levels, p, outputs)[a] && y in Done(levels, p, outputs)[b]
    ensures NewerSource(OnDisk(x), OnDisk(y))
  {
    DoneMembers(levels, p, outputs, a, x);
    DoneMembers(levels, p, outputs, b, y);
    if y in LevelAt(levels, b) && y !in Inputs(p) {
      if !(x in LevelAt(levels, a) && x !in Inputs(p)) {
        forall z | z in Inputs(p) ensures NewerSource(OnDisk(z), OnDisk(y)) { InputAboveLower(levels, p, z, b, y); }
        OutputNewer(p.job, Inputs(p), outputs, x, OnDisk(y));
      }
    } else {
      NewerThanOutput(p.job, Inputs(p), outputs, OnDisk(x), y);
    }
  }

  lemma DoneTree(levels: Tree, p: Picked, outputs: seq<Table>)
    requires Finishing(levels, p, outputs)
    ensures TreeOrdered(Done(levels, p, outputs))
  {
    var after := Done(levels, p, outputs);
    forall a, b, x, y | 0 <= a < b < |after| && x in after[a] && y in after[b]
      ensures NewerSource(OnDisk(x), OnDisk(y))
    {
      DonePair(levels, p, outputs, a, b, x, y);
    }
    forall i, j | 0 <= i < j < |after[0]| ensures NewerSource(OnDisk(after[0][i]), OnDisk(after[0][j])) {
      var a, b := WithoutPicks(LevelAt(levels, 0), Ids(Inputs(p)), i, j);
    }
  }

  lemma DoneMems(db: Db, p: Picked, outputs: seq<Table>)
    requires Finishing(db.levels, p, outputs) && MemsOrdered(db)
    ensures MemsOrdered(db.(levels := Done(db.levels, p, outputs)))
  {
    forall m, t | (m == db.mem || m in db.imms) && InTree(Done(db.levels, p, outputs), t)
      ensures NewerSource(InMemory(m), OnDisk(t))
    {
      DoneInTree(db.levels, p, outputs, t);
      if t in outputs {
        forall y | y in Inputs(p) ensures NewerSource(InMemory(m), OnDisk(y)) { InputLive(db.levels, p, y); }
        NewerThanOutput(p.job, Inputs(p), outputs, InMemory(m), t);
      }
    }
  }
}
