/** Installing a finished job changes no read. */
module EngineReads {
  import opened Semantics
  import opened Tables
  import opened JobTheorem
  import opened Sources
  import opened Engine
  import opened EngineFacts
  import opened EngineFinish

  /** The database before and after the job, and one key of it. */
  ghost predicate Swapping(db: Db, p: Picked, outputs: seq<Table>)
  {
    Finishing(db.levels, p, outputs) && MemsOrdered(db)
  }

  function Swapped(db: Db, p: Picked, outputs: seq<Table>): Db
  {
    db.(levels := Done(db.levels, p, outputs))
  }

  function Lower(db: Db, p: Picked): seq<Table>
  {
    if p.target + 1 < |db.levels| then AllTables(db.levels[p.target + 1..]) else []
  }

  function Below(db: Db, p: Picked, k: Key): History
  {
    HistoryOf(Lower(db, p), k)
  }

  /** What the sources above the job say. */
  function Upper(db: Db, p: Picked, k: Key): History
  {
    var h := DbHistory(db, k);
    map n | n in h && n !in HistoryOf(Inputs(p), k) && n !in Below(db, p, k) :: h[n]
  }

  lemma SwappedOrdered(db: Db, p: Picked, outputs: seq<Table>)
    requires Swapping(db, p, outputs)
    ensures Ordered(db) && Ordered(Swapped(db, p, outputs))
  {
    DoneTables(db.levels, p, outputs);
    DoneTree(db.levels, p, outputs);
    DoneMems(db, p, outputs);
  }

  lemma LowerIn(db: Db, p: Picked, z: Table) returns (b: nat)
    requires z in Lower(db, p)
    ensures p.target < b < |db.levels| && z in db.levels[b]
  {
    var tail := db.levels[p.target + 1..];
    var i :| 0 <= i < |tail| && z in tail[i];
    b := p.target + 1 + i;
  }

  lemma LowerHas(db: Db, p: Picked, z: Table, b: nat)
    requires p.target < b < |db.levels| && z in db.levels[b]
    ensures z in Lower(db, p)
  {
    assert z in db.levels[p.target + 1..][b - p.target - 1];
  }

  /** A list of live tables says what those tables say in the database. */
  lemma GroupSays(db: Db, ts: seq<Table>, k: Key, n: nat) returns (t: Table)
    requires Ordered(db) && (forall t :: t in ts ==> InTree(db.levels, t)) && n in HistoryOf(ts, k)
    ensures t in ts && n in Says(OnDisk(t), k) && HistoryOf(ts, k)[n] == Says(OnDisk(t), k)[n]
    ensures n in DbHistory(db, k) && DbHistory(db, k)[n] == HistoryOf(ts, k)[n]
  {
    t := HistoryWhere(ts, k, n);
    forall s, u, m: nat | s in TableSources(ts) && u in TableSources(ts) && m in Says(s, k) && m in Says(u, k)
      ensures s == u
    {
      assert s.table in ts && u.table in ts;
      TablesSeparate(db.levels, s.table, u.table, k, m);
    }
    HistoryValue(ts, t, k, n);
    DbValue(db, OnDisk(t), k, n);
  }

  lemma InputsSay(db: Db, p: Picked, outputs: seq<Table>, k: Key, n: nat) returns (y: Table)
    requires Swapping(db, p, outputs) && n in HistoryOf(Inputs(p), k)
    ensures y in Inputs(p) && n in Says(OnDisk(y), k)
    ensures n in DbHistory(db, k) && DbHistory(db, k)[n] == HistoryOf(Inputs(p), k)[n]
  {
    forall t | t in Inputs(p) ensures InTree(db.levels, t) { InputLive(db.levels, p, t); }
    y := GroupSays(db, Inputs(p), k, n);
  }

  lemma LowerSays(db: Db, p: Picked, k: Key, n: nat) returns (z: Table, b: nat)
    requires Ordered(db) && n in Below(db, p, k)
    ensures p.target < b < |db.levels| && z in db.levels[b] && n in Says(OnDisk(z), k)
    ensures n in DbHistory(db, k) && DbHistory(db, k)[n] == Below(db, p, k)[n]
  {
    forall t | t in Lower(db, p) ensures InTree(db.levels, t) { var c := LowerIn(db, p, t); }
    z := GroupSays(db, Lower(db, p), k, n);
    b := LowerIn(db, p, z);
  }

  lemma MapSplit(h: History, below: History, mid: History, upper: History)
    requires forall n :: n in below ==> n in h && h[n] == below[n]
    requires forall n :: n in mid ==> n in h && h[n] == mid[n]
    requires forall n :: n in upper <==> n in h && n !in mid && n !in below
    requires forall n :: n in upper ==> upper[n] == h[n]
    ensures h == (below + mid) + upper
  {
  }

  /** Before: the levels below, the inputs, and everything above. */
  lemma SplitBefore(db: Db, p: Picked, outputs: seq<Table>, k: Key)
    requires Swapping(db, p, outputs)
    ensures DbHistory(db, k) == (Below(db, p, k) + HistoryOf(Inputs(p), k)) + Upper(db, p, k)
  {
    var h, below, mid := DbHistory(db, k), Below(db, p, k), HistoryOf(Inputs(p), k);
    forall n | n in mid ensures n in h && h[n] == mid[n] {
      var y := InputsSay(db, p, outputs, k, n);
    }
    forall n | n in below ensures n in h && h[n] == below[n] {
      var z, b := LowerSays(db, p, k, n);
    }
    MapSplit(h, below, mid, Upper(db, p, k));
  }

  /** Inputs share no sequence of a key with the levels below. */
  lemma InputsNotBelow(db: Db, p: Picked, outputs: seq<Table>, k: Key, n: nat)
    requires Swapping(db, p, outputs) && n in HistoryOf(Inputs(p), k)
    ensures forall m :: m in Below(db, p, k) ==> n > m
  {
    SwappedOrdered(db, p, outputs);
    forall m | m in Below(db, p, k) ensures n > m {
      var y := InputsSay(db, p, outputs, k, n);
      var z, b := LowerSays(db, p, k, m);
      InputAboveLower(db.levels, p, y, b, z);
    }
  }

  /** A source the job leaves alone is one of the new database's sources too. */
  lemma KeptSource(db: Db, p: Picked, outputs: seq<Table>, s: Source)
    requires Swapping(db, p, outputs) && IsSource(db, s) && (s.OnDisk? ==> s.table !in Inputs(p))
    ensures IsSource(Swapped(db, p, outputs), s)
  {
    if s.OnDisk? { DoneInTree(db.levels, p, outputs, s.table); }
  }

  lemma OutputSays(db: Db, p: Picked, outputs: seq<Table>, k: Key, n: nat, o: Table)
    requires Swapping(db, p, outputs) && o in outputs && n in Says(OnDisk(o), k)
    ensures n in HistoryOf(outputs, k) && n in HistoryOf(Inputs(p), k)
    ensures n in DbHistory(Swapped(db, p, outputs), k)
    ensures HistoryOf(outputs, k)[n] == DbHistory(Swapped(db, p, outputs), k)[n]
  {
    SwappedOrdered(db, p, outputs);
    var db2 := Swapped(db, p, outputs);
    forall t | t in outputs ensures InTree(db2.levels, t) { DoneInTree(db.levels, p, outputs, t); }
    HistoryHas(outputs, o, k, n);
    var u := GroupSays(db2, outputs, k, n);
    JobShrinks(p.job, Inputs(p), outputs, k, n);
  }

  lemma KeptSays(db: Db, p: Picked, outputs: seq<Table>, k: Key, n: nat, s: Source)
    requires Swapping(db, p, outputs) && IsSource(db, s) && (s.OnDisk? ==> s.table !in Inputs(p)) && n in Says(s, k)
    ensures n !in HistoryOf(outputs, k) && n !in HistoryOf(Inputs(p), k)
    ensures n in DbHistory(db, k) && DbHistory(db, k)[n] == Says(s, k)[n]
    ensures n in Below(db, p, k) ==> Below(db, p, k)[n] == Says(s, k)[n]
  {
    SwappedOrdered(db, p, outputs);
    DbValue(db, s, k, n);
    if n in HistoryOf(outputs, k) { JobShrinks(p.job, Inputs(p), outputs, k, n); }
    if n in HistoryOf(Inputs(p), k) {
      var y := InputsSay(db, p, outputs, k, n);
      InputLive(db.levels, p, y);
      DbOnly(db, s, OnDisk(y), k, n);
    }
    if n in Below(db, p, k) { var z, b := LowerSays(db, p, k, n); }
  }

  lemma AfterWithin(db: Db, p: Picked, outputs: seq<Table>, k: Key, n: nat)
    requires Swapping(db, p, outputs) && n in DbHistory(Swapped(db, p, outputs), k)
    ensures var h := (Below(db, p, k) + HistoryOf(outputs, k)) + Upper(db, p, k);
            n in h && h[n] == DbHistory(Swapped(db, p, outputs), k)[n]
  {
    var s := DbWhere(Swapped(db, p, outputs), k, n);
    if s.OnDisk? { DoneInTree(db.levels, p, outputs, s.table); }
    if s.OnDisk? && s.table in outputs {
      OutputSays(db, p, outputs, k, n, s.table);
    } else {
      KeptSays(db, p, outputs, k, n, s);
    }
    MapPick(Below(db, p, k), HistoryOf(outputs, k), Upper(db, p, k), n);
  }

  lemma MapPick(below: History, mid: History, upper: History, n: nat)
    ensures var h := (below + mid) + upper;
            && (n in h <==> n in below || n in mid || n in upper)
            && (n in h ==> h[n] == if n in upper then upper[n] else if n in mid then mid[n] else below[n])
  {
  }

  lemma AfterHas(db: Db, p: Picked, outputs: seq<Table>, k: Key, n: nat)
    requires Swapping(db, p, outputs)
    requires n in (Below(db, p, k) + HistoryOf(outputs, k)) + Upper(db, p, k)
    ensures n in DbHistory(Swapped(db, p, outputs), k)
  {
    SwappedOrdered(db, p, outputs);
    var db2 := Swapped(db, p, outputs);
    if n in HistoryOf(outputs, k) {
      var o := HistoryWhere(outputs, k, n);
      DoneInTree(db.levels, p, outputs, o);
      DbValue(db2, OnDisk(o), k, n);
    } else if n in Below(db, p, k) {
      var z, b := LowerSays(db, p, k, n);
      if z in Inputs(p) { InputAboveLower(db.levels, p, z, b, z); }
      KeptSource(db, p, outputs, OnDisk(z));
      DbValue(db2, OnDisk(z), k, n);
    } else {
      var s := DbWhere(db, k, n);
      if s.OnDisk? && s.table in Inputs(p) { HistoryHas(Inputs(p), s.table, k, n); }
      KeptSource(db, p, outputs, s);
      DbValue(db2, s, k, n);
    }
  }

  /** After: the same below and above, around the outputs. */
  lemma SplitAfter(db: Db, p: Picked, outputs: seq<Table>, k: Key)
    requires Swapping(db, p, outputs)
    ensures DbHistory(Swapped(db, p, outputs), k) == (Below(db, p, k) + HistoryOf(outputs, k)) + Upper(db, p, k)
  {
    hide Finishing, HistoryOf;
    var h := (Below(db, p, k) + HistoryOf(outputs, k)) + Upper(db, p, k);
    forall n | n in DbHistory(Swapped(db, p, outputs), k)
      ensures n in h && h[n] == DbHistory(Swapped(db, p, outputs), k)[n]
    {
      AfterWithin(db, p, outputs, k, n);
    }
    forall n | n in h ensures n in DbHistory(Swapped(db, p, outputs), k) {
      AfterHas(db, p, outputs, k, n);
    }
  }

  /** Everything above the job is newer than everything in it and below it. */
  lemma UpperNewer(db: Db, p: Picked, outputs: seq<Table>, k: Key, n: nat, m: nat)
    requires Swapping(db, p, outputs) && n in Upper(db, p, k)
    requires m in Below(db, p, k) || m in HistoryOf(Inputs(p), k)
    ensures n > m
  {
    hide Overlay, DbHistory, HistoryOf, Ordered;
    SwappedOrdered(db, p, outputs);
    var s := DbWhere(db, k, n);
    var t, b := AtOrBelow(db, p, outputs, k, m);
    assert IsSource(db, OnDisk(t));
    if s.OnDisk? {
      if s.table in Inputs(p) { HistoryHas(Inputs(p), s.table, k, n); }
      var a :| 0 <= a < |db.levels| && s.table in db.levels[a];
      if a > p.target {
        LowerHas(db, p, s.table, a);
        HistoryHas(Lower(db, p), s.table, k, n);
      }
      assert NewerSource(s, OnDisk(t));
    }
  }

  lemma AtOrBelow(db: Db, p: Picked, outputs: seq<Table>, k: Key, m: nat) returns (t: Table, b: nat)
    requires Swapping(db, p, outputs) && (m in Below(db, p, k) || m in HistoryOf(Inputs(p), k))
    ensures m in Says(OnDisk(t), k) && b < |db.levels| && t in db.levels[b] && (t in Inputs(p) || b > p.target)
  {
    SwappedOrdered(db, p, outputs);
    if m in Below(db, p, k) {
      t, b := LowerSays(db, p, k, m);
    } else {
      t := InputsSay(db, p, outputs, k, m);
      InputLive(db.levels, p, t);
      b :| 0 <= b < |db.levels| && t in db.levels[b];
    }
  }

  lemma BottomBare(db: Db, p: Picked, outputs: seq<Table>, k: Key)
    requires Swapping(db, p, outputs) && p.job.bottom && HistoryOf(Inputs(p), k) != map[]
    ensures Below(db, p, k) == map[]
  {
    var n :| n in HistoryOf(Inputs(p), k);
    var y := InputsSay(db, p, outputs, k, n);
    SaysTouches(y, k);
    if m :| m in Below(db, p, k) {
      var z, b := LowerSays(db, p, k, m);
      SaysTouches(z, k);
    }
  }

  lemma JobSits(db: Db, p: Picked, outputs: seq<Table>, k: Key, least: nat)
    requires Swapping(db, p, outputs) && Associative(p.job.op)
    requires least in HistoryOf(Inputs(p), k) && forall n :: n in HistoryOf(Inputs(p), k) ==> least <= n
    ensures JobOver(p.job, Inputs(p), outputs, k, Below(db, p, k), least - 1)
  {
    InputsNotBelow(db, p, outputs, k, least);
    InputsSeparate(db.levels, p, k);
    if p.job.bottom { BottomBare(db, p, outputs, k); }
  }

  /** The job alone, over what lies below it. */
  lemma {:induction false} JobKeepsReads(db: Db, p: Picked, outputs: seq<Table>, r: Reader, s: nat)
    requires Swapping(db, p, outputs) && Associative(r.op) && Frozen(p, r.op, s, r.now)
    requires CleanKey(p.job, Inputs(p), r.key)
    ensures Equiv(r, Walk(Below(db, p, r.key) + HistoryOf(Inputs(p), r.key), s),
              Walk(Below(db, p, r.key) + HistoryOf(outputs, r.key), s))
  {
    var k, h := r.key, HistoryOf(Inputs(p), r.key);
    if some: nat :| some in h {
      var least := Least(h, some);
      var bound: int := least;
      bound := bound - 1;
      JobSits(db, p, outputs, k, least);
      JobPreserves(p.job, Inputs(p), outputs, k, Below(db, p, k), bound, r, s);
    } else {
      forall n | n in HistoryOf(outputs, k) ensures n in h { JobShrinks(p.job, Inputs(p), outputs, k, n); }
      assert h == HistoryOf(outputs, k);
    }
  }

  lemma EquivTrans(r: Reader, a: Chain, b: Chain, c: Chain)
    requires Equiv(r, a, b) && Equiv(r, b, c)
    ensures Equiv(r, a, c)
  {
    forall newer: seq<Value> ensures ResolveUnder(r, newer, a) == ResolveUnder(r, newer, c) {
      assert ResolveUnder(r, newer, a) == ResolveUnder(r, newer, b);
    }
  }

  /** The install changes no read at or above the job's watermark. */
  lemma {:induction false} SwapKeepsReads(db: Db, p: Picked, outputs: seq<Table>, r: Reader, s: nat)
    requires Swapping(db, p, outputs) && Associative(r.op) && Frozen(p, r.op, s, r.now)
    requires CleanKey(p.job, Inputs(p), r.key)
    ensures Equiv(r, Walk(DbHistory(db, r.key), s), Walk(DbHistory(Swapped(db, p, outputs), r.key), s))
  {
    var k := r.key;
    SplitBefore(db, p, outputs, k);
    SplitAfter(db, p, outputs, k);
    var g, h := Below(db, p, k) + HistoryOf(Inputs(p), k), Below(db, p, k) + HistoryOf(outputs, k);
    forall m: nat | m >= p.job.oldest ensures Equiv(r, Walk(g, m), Walk(h, m)) {
      JobKeepsReads(db, p, outputs, r, m);
    }
    forall n, m | n in Upper(db, p, k) && (m in g || m in h) ensures n > m {
      if m in HistoryOf(outputs, k) { JobShrinks(p.job, Inputs(p), outputs, k, m); }
      UpperNewer(db, p, outputs, k, n, m);
    }
    Stacked(r, g, h, Upper(db, p, k), p.job.oldest, s);
  }
}
