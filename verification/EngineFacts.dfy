/** What the engine's invariant says about the union of its sources. */
module EngineFacts {
  import opened Semantics
  import opened Tables
  import opened Levels
  import opened Sources
  import opened Install
  import opened Engine

  // ---- stacking histories -------------------------------------------------------------

  lemma Least(h: History, n: nat) returns (m: nat)
    requires n in h
    ensures m in h && forall x :: x in h ==> m <= x
    decreases n
  {
    if x: nat :| x in h && x < n {
      m := Least(h, x);
    } else {
      m := n;
    }
  }

  /** Indistinguishable histories stay so under any newer data. */
  lemma {:induction false} Stacked(r: Reader, g: History, h: History, newer: History, floor: nat, s: nat)
    requires forall m: nat :: m >= floor ==> Equiv(r, Walk(g, m), Walk(h, m))
    requires forall n, m :: n in newer && (m in g || m in h) ==> n > m
    requires s >= floor
    ensures Equiv(r, Walk(g + newer, s), Walk(h + newer, s))
  {
    hide Above, SameBetween, ResolveUnder;
    if newer == map[] {
      assert g + newer == g && h + newer == h;
    } else {
      var some :| some in newer;
      var m := Least(newer, some);
      if s < m {
        WalkAgree(g, g + newer, s);
        WalkAgree(h, h + newer, s);
      } else {
        WalkAgree(g, g + newer, m - 1);
        WalkAgree(h, h + newer, m - 1);
        if m - 1 < floor {
          WalkSkip(g, m - 1, floor);
          WalkSkip(h, m - 1, floor);
        }
        WalkEquivAbove(r, g + newer, h + newer, m - 1, s);
      }
    }
  }

  /** Entries under a tombstone that stays are never reached. */
  lemma {:induction false} WalkRemove(g: History, h: History, s: int)
    requires forall n :: n in h ==> n in g && g[n] == h[n]
    requires forall n: nat :: n in g && n !in h && n <= s ==> exists c: nat :: n < c <= s && c in h && h[c].Tombstone?
    ensures Walk(g, s) == Walk(h, s)
    decreases s + 1
  {
    if s >= 0 && !(s in h && h[s].Tombstone?) {
      WalkRemove(g, h, s - 1);
    }
  }

  // ---- sources are separate -----------------------------------------------------------

  ghost predicate Ordered(db: Db)
  {
    TablesOk(db.levels) && TreeOrdered(db.levels) && MemsOrdered(db)
  }

  lemma LevelTouch(level: seq<Table>, i: nat, j: nat, k: Key)
    requires LevelOk(level) && i < |level| && j < |level| && Touches(level[i], k) && Touches(level[j], k)
    ensures i == j
  {
    if i < j {
      ApartTouch(level[i], level[j], k);
    } else if j < i {
      ApartTouch(level[j], level[i], k);
    }
  }

  lemma TablesSeparate(levels: Tree, t: Table, u: Table, k: Key, n: nat)
    requires TablesOk(levels) && TreeOrdered(levels) && InTree(levels, t) && InTree(levels, u)
    requires n in Says(OnDisk(t), k) && n in Says(OnDisk(u), k)
    ensures t == u
  {
    SaysTouches(t, k);
    SaysTouches(u, k);
    var a :| 0 <= a < |levels| && t in levels[a];
    var b :| 0 <= b < |levels| && u in levels[b];
    assert a == b;
    var i :| 0 <= i < |levels[a]| && levels[a][i] == t;
    var j :| 0 <= j < |levels[a]| && levels[a][j] == u;
    if a > 0 {
      LevelTouch(levels[a], i, j, k);
    } else {
      assert i == j;
    }
  }

  lemma DbSeparate(db: Db, k: Key)
    requires Ordered(db)
    ensures Separate(DbSources(db), k)
  {
    forall s, t, n: nat | s in DbSources(db) && t in DbSources(db) && n in Says(s, k) && n in Says(t, k)
      ensures s == t
    {
      SourceIff(db, s);
      SourceIff(db, t);
      if s.OnDisk? && t.OnDisk? { TablesSeparate(db.levels, s.table, t.table, k, n); }
    }
  }

  lemma DbValue(db: Db, s: Source, k: Key, n: nat)
    requires Ordered(db) && IsSource(db, s) && n in Says(s, k)
    ensures n in DbHistory(db, k) && DbHistory(db, k)[n] == Says(s, k)[n]
  {
    DbSeparate(db, k);
    SourceIff(db, s);
    UnionValue(DbSources(db), s, k, n);
  }

  lemma DbWhere(db: Db, k: Key, n: nat) returns (s: Source)
    requires n in DbHistory(db, k)
    ensures IsSource(db, s) && n in Says(s, k) && DbHistory(db, k)[n] == Says(s, k)[n]
  {
    s := UnionWhere(DbSources(db), k, n);
    SourceIff(db, s);
  }

  lemma DbOnly(db: Db, s: Source, t: Source, k: Key, n: nat)
    requires Ordered(db) && IsSource(db, s) && IsSource(db, t) && n in Says(s, k) && n in Says(t, k)
    ensures s == t
  {
    DbSeparate(db, k);
    SourceIff(db, s);
    SourceIff(db, t);
  }

  /** Whatever `a` says about `k`, some source of `b` says too. */
  ghost predicate Carries(a: Db, b: Db, k: Key)
  {
    forall s, n: nat :: IsSource(a, s) && n in Says(s, k) ==>
      exists t :: IsSource(b, t) && n in Says(t, k) && Says(t, k)[n] == Says(s, k)[n]
  }

  lemma CarriesAll(a: Db, b: Db, k: Key)
    requires Ordered(b) && Carries(a, b, k)
    ensures forall n :: n in DbHistory(a, k) ==> n in DbHistory(b, k) && DbHistory(b, k)[n] == DbHistory(a, k)[n]
  {
    forall n | n in DbHistory(a, k) ensures n in DbHistory(b, k) && DbHistory(b, k)[n] == DbHistory(a, k)[n] {
      var s := DbWhere(a, k, n);
      var t :| IsSource(b, t) && n in Says(t, k) && Says(t, k)[n] == Says(s, k)[n];
      DbValue(b, t, k, n);
    }
  }

  lemma SameHistory(a: Db, b: Db, k: Key)
    requires Ordered(a) && Ordered(b) && Carries(a, b, k) && Carries(b, a, k)
    ensures DbHistory(a, k) == DbHistory(b, k)
  {
    CarriesAll(a, b, k);
    CarriesAll(b, a, k);
  }
}
