/** Commits, rotation, flushes, failures and the watermarks keep the invariant. */
module EngineSteps {
  import opened Semantics
  import opened Fragments
  import opened Tables
  import opened Levels
  import opened Sources
  import opened Engine
  import opened EngineFacts

  // ---- commit -------------------------------------------------------------------------

  function Grown(batch: Mem, m: Mem): Mem
  {
    Mem(batch.points + m.points, batch.spans + m.spans)
  }

  lemma {:induction false} MemGrowsAt(batch: Mem, m: Mem, k: Key, n: nat)
    ensures n in PointsOf(Grown(batch, m).points, k) <==> n in PointsOf(batch.points, k) || n in PointsOf(m.points, k)
    ensures n in SpanCovers(Grown(batch, m).spans, k) <==>
              n in SpanCovers(batch.spans, k) || n in SpanCovers(m.spans, k)
    ensures n in Says(InMemory(batch), k) && n !in Says(InMemory(m), k) ==>
              n in Says(InMemory(Grown(batch, m)), k)
                  && Says(InMemory(Grown(batch, m)), k)[n] == Says(InMemory(batch), k)[n]
    ensures n in Says(InMemory(m), k) && n !in Says(InMemory(batch), k) ==>
              n in Says(InMemory(Grown(batch, m)), k)
                  && Says(InMemory(Grown(batch, m)), k)[n] == Says(InMemory(m), k)[n]
  {
    PointsConcat(batch.points, m.points, k);
    SpanCoversConcat(batch.spans, m.spans, k);
  }

  /** Adding a newer batch to a memtable (or to the log) adds exactly what it says. */
  lemma MemGrows(batch: Mem, m: Mem)
    requires Distinct(InMemory(batch)) && Distinct(InMemory(m)) && NewerSource(InMemory(batch), InMemory(m))
    ensures Distinct(InMemory(Grown(batch, m)))
    ensures forall k: Key :: Says(InMemory(Grown(batch, m)), k) == Says(InMemory(m), k) + Says(InMemory(batch), k)
  {
    forall k: Key, n: nat
      ensures !(n in PointsOf(Grown(batch, m).points, k) && n in SpanCovers(Grown(batch, m).spans, k))
    {
      MemGrowsAt(batch, m, k, n);
      assert !(n in Says(InMemory(batch), k) && n in Says(InMemory(m), k));
    }
    forall k: Key ensures Says(InMemory(Grown(batch, m)), k) == Says(InMemory(m), k) + Says(InMemory(batch), k) {
      forall n: nat
        ensures n in Says(InMemory(Grown(batch, m)), k) <==> n in Says(InMemory(m), k) || n in Says(InMemory(batch), k)
        ensures n in Says(InMemory(Grown(batch, m)), k) ==>
                Says(InMemory(Grown(batch, m)), k)[n] == (Says(InMemory(m), k) + Says(InMemory(batch), k))[n]
      {
        MemGrowsAt(batch, m, k, n);
        assert !(n in Says(InMemory(batch), k) && n in Says(InMemory(m), k));
      }
    }
  }

  lemma BatchAboveDb(db: Db, batch: Mem, s: Source)
    requires Ordered(db) && Logged(db) && MayCommit(db, batch) && IsSource(db, s)
    ensures NewerSource(InMemory(batch), s)
  {
    forall k: Key, m: nat, n: nat | m in Says(InMemory(batch), k) && n in Says(s, k) ensures m > n {
      DbValue(db, s, k, n);
      assert n in LogHistory(db, k);
    }
  }

  /** If two memtables are newer than a source, so is their union. */
  lemma GrownNewer(batch: Mem, m: Mem, s: Source)
    requires forall k: Key :: Says(InMemory(Grown(batch, m)), k) == Says(InMemory(m), k) + Says(InMemory(batch), k)
    requires NewerSource(InMemory(batch), s) && NewerSource(InMemory(m), s)
    ensures NewerSource(InMemory(Grown(batch, m)), s)
  {
  }

  lemma CommitOrdered(db: Db, batch: Mem)
    requires Ordered(db) && Logged(db) && MayCommit(db, batch)
    ensures Ordered(Next(db, Commit(batch)))
    ensures forall k: Key :: Says(InMemory(Grown(batch, db.mem)), k) == Says(InMemory(db.mem), k) +
              Says(InMemory(batch), k)
  {
    BatchAboveDb(db, batch, InMemory(db.mem));
    MemGrows(batch, db.mem);
    forall m | m in db.imms ensures NewerSource(InMemory(Grown(batch, db.mem)), InMemory(m)) {
      BatchAboveDb(db, batch, InMemory(m));
      GrownNewer(batch, db.mem, InMemory(m));
    }
    forall t | InTree(db.levels, t) ensures NewerSource(InMemory(Grown(batch, db.mem)), OnDisk(t)) {
      BatchAboveDb(db, batch, OnDisk(t));
      GrownNewer(batch, db.mem, OnDisk(t));
    }
  }

  lemma CommitWithin(db: Db, batch: Mem, k: Key, n: nat)
    requires Ordered(db) && Logged(db) && MayCommit(db, batch) && n in DbHistory(Next(db, Commit(batch)), k)
    ensures n in DbHistory(db, k) + Says(InMemory(batch), k)
    ensures DbHistory(Next(db, Commit(batch)), k)[n] == (DbHistory(db, k) + Says(InMemory(batch), k))[n]
  {
    CommitOrdered(db, batch);
    var s := DbWhere(Next(db, Commit(batch)), k, n);
    if s == InMemory(Grown(batch, db.mem)) {
      if n !in Says(InMemory(batch), k) { DbValue(db, InMemory(db.mem), k, n); }
    } else {
      DbValue(db, s, k, n);
      BatchAboveDb(db, batch, s);
    }
  }

  lemma CommitHas(db: Db, batch: Mem, k: Key, n: nat)
    requires Ordered(db) && Logged(db) && MayCommit(db, batch) && n in DbHistory(db, k) + Says(InMemory(batch), k)
    ensures n in DbHistory(Next(db, Commit(batch)), k)
  {
    var db2, grown := Next(db, Commit(batch)), InMemory(Grown(batch, db.mem));
    CommitOrdered(db, batch);
    if n in Says(InMemory(batch), k) {
      DbValue(db2, grown, k, n);
    } else {
      var s := DbWhere(db, k, n);
      DbValue(db2, if s == InMemory(db.mem) then grown else s, k, n);
    }
  }

  lemma SameMap(g: History, h: History)
    requires (forall n :: n in g ==> n in h && g[n] == h[n]) && (forall n :: n in h ==> n in g)
    ensures g == h
  {
  }

  /** A commit adds the batch to what the sources say, and to the log. */
  lemma CommitAdds(db: Db, batch: Mem, k: Key)
    requires Ordered(db) && Logged(db) && MayCommit(db, batch)
    ensures DbHistory(Next(db, Commit(batch)), k) == DbHistory(db, k) + Says(InMemory(batch), k)
    ensures LogHistory(Next(db, Commit(batch)), k) == LogHistory(db, k) + Says(InMemory(batch), k)
  {
    var g, h := DbHistory(Next(db, Commit(batch)), k), DbHistory(db, k) + Says(InMemory(batch), k);
    forall n | n in g ensures n in h && g[n] == h[n] { CommitWithin(db, batch, k, n); }
    forall n | n in h ensures n in g { CommitHas(db, batch, k, n); }
    SameMap(g, h);
    MemGrows(batch, db.log);
    assert LogHistory(Next(db, Commit(batch)), k) == Says(InMemory(Grown(batch, db.log)), k);
  }

  lemma {:induction false} CommitFaithful(db: Db, op: MergeOp, batch: Mem, r: Reader, s: nat)
    requires Ordered(db) && Logged(db) && Faithful(db, op, r.key) && MayCommit(db, batch)
    requires r.op == op && r.now >= db.now && s >= db.oldest
    ensures Equiv(r, Walk(DbHistory(Next(db, Commit(batch)), r.key), s),
              Walk(LogHistory(Next(db, Commit(batch)), r.key), s))
  {
    hide Says;
    CommitAdds(db, batch, r.key);
    forall m: nat | m >= db.oldest ensures Equiv(r, Walk(DbHistory(db, r.key), m), Walk(LogHistory(db, r.key), m)) {
      assert r == Reader(op, r.key, r.now);
    }
    Stacked(r, DbHistory(db, r.key), LogHistory(db, r.key), Says(InMemory(batch), r.key), db.oldest, s);
  }

  lemma CommitKeeps(db: Db, op: MergeOp, batch: Mem)
    requires Inv(db, op) && MayCommit(db, batch)
    ensures Inv(Next(db, Commit(batch)), op)
  {
    var db2 := Next(db, Commit(batch));
    CommitOrdered(db, batch);
    MemGrows(batch, db.log);
    forall k: Key, n: nat | n in DbHistory(db2, k) ensures n in LogHistory(db2, k) {
      CommitAdds(db, batch, k);
    }
  }

  lemma CommitReads(db: Db, op: MergeOp, batch: Mem, k: Key)
    requires Inv(db, op) && Faithful(db, op, k) && MayCommit(db, batch)
    ensures Faithful(Next(db, Commit(batch)), op, k)
  {
    var db2 := Next(db, Commit(batch));
    forall t: int, s: nat | t >= db2.now && s >= db2.oldest
      ensures Equiv(Reader(op, k, t), Walk(DbHistory(db2, k), s), Walk(LogHistory(db2, k), s))
    {
      CommitFaithful(db, op, batch, Reader(op, k, t), s);
    }
  }

  // ---- rotation -----------------------------------------------------------------------

  lemma RotateOrdered(db: Db)
    requires MemsOrdered(db)
    ensures MemsOrdered(Next(db, Rotate))
  {
    hide InTree;
    var db2 := Next(db, Rotate);
    assert forall k: Key :: Says(InMemory(EMPTY), k) == map[];
    forall i, j | 0 <= i < j < |db2.imms| ensures NewerSource(InMemory(db2.imms[j]), InMemory(db2.imms[i])) {
      assert db2.imms[i] in db.imms;
    }
  }

  lemma RotateSame(db: Db, k: Key)
    requires Ordered(db) && Ordered(Next(db, Rotate))
    ensures DbHistory(db, k) == DbHistory(Next(db, Rotate), k)
  {
    hide DbHistory, Ordered;
    var db2 := Next(db, Rotate);
    assert Says(InMemory(EMPTY), k) == map[];
    forall s, n: nat | IsSource(db, s) && n in Says(s, k) ensures IsSource(db2, s) {
      assert db2.imms == db.imms + [db.mem];
    }
    SameHistory(db, db2, k);
  }

  lemma RotateKeeps(db: Db, op: MergeOp)
    requires Inv(db, op)
    ensures Inv(Next(db, Rotate), op)
  {
    hide DbHistory, LogHistory, MemsOrdered, TreeOrdered, TablesOk;
    RotateOrdered(db);
    forall k: Key ensures DbHistory(db, k) == DbHistory(Next(db, Rotate), k) { RotateSame(db, k); }
    forall k: Key ensures LogHistory(db, k) == LogHistory(Next(db, Rotate), k) { SameLog(db, Next(db, Rotate), k); }
  }

  lemma SameLog(a: Db, b: Db, k: Key)
    requires a.log == b.log
    ensures LogHistory(a, k) == LogHistory(b, k)
  {
  }

  // ---- flush --------------------------------------------------------------------------

  lemma LandedMembers(levels: Tree, t: Table, u: Table)
    ensures InTree(Landed(levels, t), u) <==> u == t || InTree(levels, u)
  {
    var after := Landed(levels, t);
    if InTree(levels, u) {
      var i :| 0 <= i < |levels| && u in levels[i];
      assert u in after[i];
    }
    if u == t { assert u in after[0]; }
    if InTree(after, u) && u != t {
      var i :| 0 <= i < |after| && u in after[i];
      assert u in levels[i];
    }
  }

  lemma FlushTree(db: Db, t: Table)
    requires TreeOrdered(db.levels) && forall y :: InTree(db.levels, y) ==> NewerSource(OnDisk(t), OnDisk(y))
    ensures TreeOrdered(Landed(db.levels, t))
  {
    hide NewerSource;
    var after := Landed(db.levels, t);
    assert forall a :: 1 <= a < |after| ==> after[a] == db.levels[a];
    forall a, b, x, y | 0 <= a < b < |after| && x in after[a] && y in after[b]
      ensures NewerSource(OnDisk(x), OnDisk(y))
    {
      assert InTree(db.levels, y);
    }
    forall i, j | 0 <= i < j < |after[0]| ensures NewerSource(OnDisk(after[0][i]), OnDisk(after[0][j])) {
      assert after[0][j] in db.levels[0];
    }
  }

  lemma FlushMems(db: Db, t: Table)
    requires MemsOrdered(db) && MayFlush(db, Some(t))
    ensures MemsOrdered(Next(db, Flush(Some(t))))
  {
    var db2 := Next(db, Flush(Some(t)));
    forall u ensures InTree(db2.levels, u) <==> u == t || InTree(db.levels, u) { LandedMembers(db.levels, t, u); }
    forall m | m == db2.mem || m in db2.imms ensures NewerSource(InMemory(m), OnDisk(t)) {
      assert NewerSource(InMemory(m), InMemory(db.imms[0])) by {
        if m in db2.imms {
          var j :| 0 <= j < |db2.imms| && db2.imms[j] == m;
          assert db.imms[j + 1] == m;
        }
      }
    }
  }

  lemma FlushOrdered(db: Db, t: Table)
    requires Ordered(db) && MayFlush(db, Some(t))
    ensures Ordered(Next(db, Flush(Some(t))))
  {
    hide InTree;
    var after := Landed(db.levels, t);
    forall u ensures InTree(after, u) <==> u == t || InTree(db.levels, u) { LandedMembers(db.levels, t, u); }
    assert forall a :: 1 <= a < |after| ==> after[a] == db.levels[a];
    forall y | InTree(db.levels, y) ensures NewerSource(OnDisk(t), OnDisk(y)) {
      assert NewerSource(InMemory(db.imms[0]), OnDisk(y));
    }
    FlushTree(db, t);
    FlushMems(db, t);
  }

  lemma FlushSame(db: Db, t: Table, k: Key)
    requires Ordered(db) && MayFlush(db, Some(t))
    ensures DbHistory(Next(db, Flush(Some(t))), k) == DbHistory(db, k)
  {
    var db2 := Next(db, Flush(Some(t)));
    FlushOrdered(db, t);
    LandedMembers(db.levels, t, t);
    forall s | IsSource(db, s) ensures IsSource(db2, s) || s == InMemory(db.imms[0]) {
      if s.OnDisk? { LandedMembers(db.levels, t, s.table); }
    }
    forall s | IsSource(db2, s) ensures IsSource(db, s) || s == OnDisk(t) {
      if s.OnDisk? { LandedMembers(db.levels, t, s.table); }
    }
    assert IsSource(db2, OnDisk(t)) && IsSource(db, InMemory(db.imms[0]));
    SameHistory(db, db2, k);
  }

  lemma LandedUnder(db: Db, t: Table, p: Picked, a: nat, x: Table, y: Table)
    requires MemsOrdered(db) && MayFlush(db, Some(t)) && InPlace(db.levels, p)
    requires a < |Landed(db.levels, t)| && a <= p.target && x in Landed(db.levels, t)[a] && x !in Inputs(p)
    requires y in Inputs(p)
    ensures NewerSource(OnDisk(x), OnDisk(y))
  {
    assert InTree(db.levels, y);
    if x == t {
      assert NewerSource(InMemory(db.imms[0]), OnDisk(y));
    } else {
      assert x in db.levels[a];
    }
  }

  /** A landing table changes no level a job in flight depends on. */
  lemma LandedInPlace(db: Db, t: Table, p: Picked)
    requires MemsOrdered(db) && MayFlush(db, Some(t)) && InPlace(db.levels, p)
    ensures InPlace(Landed(db.levels, t), p)
  {
    var after := Landed(db.levels, t);
    assert forall a :: 1 <= a ==> LevelAt(after, a) == LevelAt(db.levels, a);
    assert forall y :: y in LevelAt(db.levels, 0) ==> y in LevelAt(after, 0);
    assert TargetBeside(after, p) && HoldsTail(after, p);
    assert BareBelow(after, p) by {
      assert forall a :: 1 <= a < |after| ==> a < |db.levels| && after[a] == db.levels[a];
    }
    forall a, x, y | 0 <= a < |after| && a <= p.target && x in after[a] && x !in Inputs(p) && y in Inputs(p)
      ensures NewerSource(OnDisk(x), OnDisk(y))
    {
      LandedUnder(db, t, p, a, x, y);
    }
  }

  lemma FlushHistory(db: Db, table: Option<Table>, k: Key)
    requires Ordered(db) && Ordered(Next(db, Flush(table))) && MayFlush(db, table)
    ensures DbHistory(Next(db, Flush(table)), k) == DbHistory(db, k)
  {
    hide DbHistory, Ordered;
    if table.Some? {
      FlushSame(db, table.value, k);
    } else {
      assert Carries(Next(db, Flush(table)), db, k);
      assert Carries(db, Next(db, Flush(table)), k);
      SameHistory(db, Next(db, Flush(table)), k);
    }
  }

  lemma FlushKeeps(db: Db, op: MergeOp, table: Option<Table>)
    requires Inv(db, op) && MayFlush(db, table)
    ensures Inv(Next(db, Flush(table)), op)
  {
    hide DbHistory;
    var db2 := Next(db, Flush(table));
    if table.Some? {
      FlushOrdered(db, table.value);
      forall i | 0 <= i < |db.pending|
        ensures InPlace(db2.levels, db2.pending[i])
      {
        LandedInPlace(db, table.value, db.pending[i]);
      }
    } else {
      assert forall m :: m in db2.imms ==> m in db.imms;
    }
    forall k: Key ensures DbHistory(db2, k) == DbHistory(db, k) { FlushHistory(db, table, k); }
  }
}
