/** Exactly which keys a point read sees whole, whatever the layout of the levels. */
module ReadExact {
  import opened Semantics
  import opened Fragments
  import opened Tables
  import opened Levels
  import opened Sources
  import opened Engine
  import opened EngineFacts
  import opened PointRead
  import opened Lookup
  import opened DbRead

  lemma {:induction false} HitFrom(levels: Tree, k: Key, t: Table) returns (m: nat, p: nat)
    requires t in HitTables(levels, k)
    ensures m < |levels| && p < |levels[m]| && levels[m][p] == t && Hit(levels[m], k) == Some(p)
    decreases |levels|
  {
    if t in At(levels[0], Hit(levels[0], k)) {
      m, p := 0, Hit(levels[0], k).value;
    } else {
      m, p := HitFrom(levels[1..], k, t);
      m := m + 1;
    }
  }

  lemma {:induction false} GapFrom(levels: Tree, k: Key, t: Table) returns (m: nat, p: nat)
    requires t in GapTables(levels, k)
    ensures m < |levels| && p < |levels[m]| && levels[m][p] == t && Gap(levels[m], k) == Some(p)
    decreases |levels|
  {
    if t in At(levels[0], Gap(levels[0], k)) {
      m, p := 0, Gap(levels[0], k).value;
    } else {
      m, p := GapFrom(levels[1..], k, t);
      m := m + 1;
    }
  }

  /** A table that says something about `k` stands in one place only. */
  lemma OneLevel(db: Db, i: nat, m: nat, t: Table, k: Key)
    requires Ordered(db) && i < |db.levels| && m < |db.levels| && t in db.levels[i] && t in db.levels[m]
    requires Says(OnDisk(t), k) != map[]
    ensures i == m
  {
    var n :| n in Says(OnDisk(t), k);
  }

  lemma OnePlace(db: Db, i: nat, j: nat, m: nat, p: nat, k: Key)
    requires Ordered(db) && 1 <= i < |db.levels| && j < |db.levels[i]|
    requires m < |db.levels| && p < |db.levels[m]| && db.levels[m][p] == db.levels[i][j]
    requires Says(OnDisk(db.levels[i][j]), k) != map[]
    ensures m == i && p == j
  {
    OneLevel(db, i, m, db.levels[i][j], k);
  }

  /** A table of a level below L0 that a read probes is what its level's search hit. */
  lemma ProbedIsHit(db: Db, k: Key, i: nat, j: nat)
    requires Ordered(db) && 1 <= i < |db.levels| && j < |db.levels[i]|
    requires Says(OnDisk(db.levels[i][j]), k) != map[] && db.levels[i][j] in PointTables(db.levels, k)
    ensures Hit(db.levels[i], k) == Some(j)
  {
    hide HitTables, GapTables;
    hide Ordered, Says;
    var t := db.levels[i][j];
    L0Live(db.levels[0], k);
    if t in L0Tables(db.levels[0], k) {
      OneLevel(db, i, 0, t, k);
    } else {
      var m, p := HitFrom(db.levels[1..], k, t);
      OnePlace(db, i, j, m + 1, p, k);
    }
  }

  lemma RangedIsGap(db: Db, k: Key, i: nat, j: nat)
    requires Ordered(db) && 1 <= i < |db.levels| && j < |db.levels[i]|
    requires Says(OnDisk(db.levels[i][j]), k) != map[] && db.levels[i][j] in RangeTables(db.levels, k)
    ensures Gap(db.levels[i], k) == Some(j)
  {
    hide HitTables, GapTables;
    hide Ordered, Says;
    var t := db.levels[i][j];
    L0Live(db.levels[0], k);
    if t in L0Ranged(db.levels[0], k) {
      OneLevel(db, i, 0, t, k);
    } else {
      var m, p := GapFrom(db.levels[1..], k, t);
      OnePlace(db, i, j, m + 1, p, k);
    }
  }

  /** Whatever a read sees of a table's words, it got from that table. */
  lemma {:induction false} SeenFromHome(db: Db, k: Key, t: Table, n: nat)
    requires Ordered(db) && InTree(db.levels, t) && n in Says(OnDisk(t), k) && n in ReadHistory(db, k)
    ensures t in PointTables(db.levels, k) || t in RangeTables(db.levels, k)
    ensures n in PointsOf(t.points, k) ==> t in PointTables(db.levels, k)
  {
    hide Ordered, ProbeOf, PointTables, RangeTables, ChosenSources, RangedSources;
    var probed, ranged := ChosenSources(db, k), RangedSources(db, k);
    ReadProbes(db, k);
    ChosenAreSources(db, k);
    var s;
    assert ProbesOf(probed, k) + ProbesOf(ranged, k) == ProbesOf(probed + ranged, k);
    if n in Covers(ProbesOf(probed + ranged, k)) {
      s := CoverFrom(probed + ranged, k, n);
      if n in PointsOf(t.points, k) { NoCover(db, k, t, s, n); }
    } else {
      s := PointFrom(probed, k, n);
    }
    SaysProbe(s, k);
    DbOnly(db, s, OnDisk(t), k, n);
    ChosenIff(db, k, s);
  }

  lemma {:induction false} NoCover(db: Db, k: Key, t: Table, s: Source, n: nat)
    requires Ordered(db) && InTree(db.levels, t) && IsSource(db, s) && n in PointsOf(t.points, k)
    ensures n !in ProbeOf(s, k).covers
  {
    PointAlone(db, OnDisk(t), s, k, n);
  }

  lemma {:induction false} SeenPointHit(db: Db, k: Key, i: nat, j: nat)
    requires Ordered(db) && ReadHistory(db, k) == DbHistory(db, k) && 1 <= i < |db.levels| && j < |db.levels[i]|
    requires PointsOf(db.levels[i][j].points, k) != map[]
    ensures Hit(db.levels[i], k) == Some(j)
  {
    hide Ordered, ReadHistory, DbHistory, Hit;
    var t := db.levels[i][j];
    var n :| n in PointsOf(t.points, k);
    assert InTree(db.levels, t);
    assert n in Says(OnDisk(t), k);
    DbValue(db, OnDisk(t), k, n);
    SeenFromHome(db, k, t, n);
    ProbedIsHit(db, k, i, j);
  }

  lemma {:induction false} SeenCoverFound(db: Db, k: Key, i: nat, j: nat)
    requires Ordered(db) && ReadHistory(db, k) == DbHistory(db, k) && 1 <= i < |db.levels| && j < |db.levels[i]|
    requires CoversOf(db.levels[i][j].frags, k) != {}
    ensures Hit(db.levels[i], k) == Some(j) || Gap(db.levels[i], k) == Some(j)
  {
    hide Ordered, ReadHistory, DbHistory, Hit, Gap;
    var t := db.levels[i][j];
    var n :| n in CoversOf(t.frags, k);
    assert InTree(db.levels, t);
    assert n in Says(OnDisk(t), k);
    DbValue(db, OnDisk(t), k, n);
    SeenFromHome(db, k, t, n);
    if t in PointTables(db.levels, k) { ProbedIsHit(db, k, i, j); } else { RangedIsGap(db, k, i, j); }
  }

  /** A read sees the whole database at `k` exactly when every level's search finds all the
      level holds about `k`. */
  lemma ReadExact(db: Db, k: Key)
    requires Ordered(db)
    ensures ReadHistory(db, k) == DbHistory(db, k) <==> Served(db.levels, k)
  {
    hide Ordered, ReadHistory, DbHistory, Hit, Gap;
    if Served(db.levels, k) {
      ChosenSees(db, k);
    } else if ReadHistory(db, k) == DbHistory(db, k) {
      forall i | 1 <= i < |db.levels| ensures Finds(db.levels[i], k) {
        var level := db.levels[i];
        forall j | 0 <= j < |level| && PointsOf(level[j].points, k) != map[] ensures Hit(level, k) == Some(j) {
          SeenPointHit(db, k, i, j);
        }
        forall j | 0 <= j < |level| && CoversOf(level[j].frags, k) != {}
          ensures Hit(level, k) == Some(j) || Gap(level, k) == Some(j)
        {
          SeenCoverFound(db, k, i, j);
        }
      }
    }
  }
}
