/** The places a key's versions can be: memtables and tables, and their union. */
module Sources {
  import opened Semantics
  import opened Fragments
  import opened Tables
  import opened JobTheorem

  /** A memtable: point versions and its range-delete set. */
  datatype Mem = Mem(points: seq<Version>, spans: seq<Span>)

  datatype Source = InMemory(mem: Mem) | OnDisk(table: Table)

  /** What one source says about `k`. */
  function Says(s: Source, k: Key): History
  {
    match s
    case InMemory(m) => Overlay(PointsOf(m.points, k), SpanCovers(m.spans, k))
    case OnDisk(t) => Overlay(PointsOf(t.points, k), CoversOf(t.frags, k))
  }

  /** What several sources say together; the first source wins a shared sequence. */
  function Union(ss: seq<Source>, k: Key): History
  {
    if ss == [] then map[] else Union(ss[1..], k) + Says(ss[0], k)
  }

  function TableSources(ts: seq<Table>): (r: seq<Source>)
    ensures |r| == |ts| && forall i :: 0 <= i < |ts| ==> r[i] == OnDisk(ts[i])
  {
    seq(|ts|, i requires 0 <= i < |ts| => OnDisk(ts[i]))
  }

  lemma UnionWhere(ss: seq<Source>, k: Key, n: nat) returns (s: Source)
    requires n in Union(ss, k)
    ensures s in ss && n in Says(s, k) && Union(ss, k)[n] == Says(s, k)[n]
  {
    if n in Says(ss[0], k) {
      s := ss[0];
    } else {
      s := UnionWhere(ss[1..], k, n);
    }
  }

  lemma {:induction false} UnionHas(ss: seq<Source>, s: Source, k: Key, n: nat)
    requires s in ss && n in Says(s, k)
    ensures n in Union(ss, k)
  {
    if s != ss[0] { UnionHas(ss[1..], s, k, n); }
  }

  /** No sequence of `k` is in two different sources. */
  ghost predicate Separate(ss: seq<Source>, k: Key)
  {
    forall s, t, n: nat :: s in ss && t in ss && n in Says(s, k) && n in Says(t, k) ==> s == t
  }

  lemma {:induction false} UnionValue(ss: seq<Source>, s: Source, k: Key, n: nat)
    requires Separate(ss, k) && s in ss && n in Says(s, k)
    ensures n in Union(ss, k) && Union(ss, k)[n] == Says(s, k)[n]
  {
    UnionHas(ss, s, k, n);
    var t := UnionWhere(ss, k, n);
  }

  // ---- order between sources -----------------------------------------------------------

  /** On every key both know, `s` holds only newer sequences. */
  ghost predicate NewerSource(s: Source, t: Source)
  {
    forall k: Key, m: nat, n: nat :: m in Says(s, k) && n in Says(t, k) ==> m > n
  }

  /** A source whose range deletes share no sequence with its own points. */
  ghost predicate Distinct(s: Source)
  {
    match s
    case InMemory(m) => forall k: Key :: PointsOf(m.points, k).Keys !! SpanCovers(m.spans, k)
    case OnDisk(t) => forall k: Key :: PointsOf(t.points, k).Keys !! CoversOf(t.frags, k)
  }

  // ---- tables of a job -------------------------------------------------------------------

  lemma SaysTouches(t: Table, k: Key)
    ensures Touches(t, k) <==> Says(OnDisk(t), k) != map[]
  {
    if Says(OnDisk(t), k) != map[] {
      var n :| n in Says(OnDisk(t), k);
    } else {
      forall n ensures n !in PointsOf(t.points, k) && n !in CoversOf(t.frags, k) {
        assert n !in Says(OnDisk(t), k);
      }
    }
  }

  lemma PointsWhere(ts: seq<Table>, k: Key, n: nat) returns (t: Table)
    requires n in PointsOf(AllPoints(ts), k)
    ensures t in ts && n in PointsOf(t.points, k) && PointsOf(AllPoints(ts), k)[n] == PointsOf(t.points, k)[n]
  {
    PointsConcat(ts[0].points, AllPoints(ts[1..]), k);
    if n in PointsOf(ts[0].points, k) {
      t := ts[0];
    } else {
      t := PointsWhere(ts[1..], k, n);
    }
  }

  lemma CoversWhere(ts: seq<Table>, k: Key, n: nat) returns (t: Table)
    requires n in AllCovers(ts, k)
    ensures t in ts && n in CoversOf(t.frags, k)
  {
    if n in CoversOf(ts[0].frags, k) {
      t := ts[0];
    } else {
      t := CoversWhere(ts[1..], k, n);
    }
  }

  lemma HistoryWhere(ts: seq<Table>, k: Key, n: nat) returns (t: Table)
    requires n in HistoryOf(ts, k)
    ensures t in ts && n in Says(OnDisk(t), k)
  {
    if n in AllCovers(ts, k) {
      t := CoversWhere(ts, k, n);
    } else {
      t := PointsWhere(ts, k, n);
    }
  }

  lemma {:induction false} CoversHas(ts: seq<Table>, t: Table, k: Key, n: nat)
    requires t in ts && n in CoversOf(t.frags, k)
    ensures n in AllCovers(ts, k)
  {
    if t != ts[0] { CoversHas(ts[1..], t, k, n); }
  }

  lemma {:induction false} PointsHas(ts: seq<Table>, t: Table, k: Key, n: nat)
    requires t in ts && n in PointsOf(t.points, k)
    ensures n in PointsOf(AllPoints(ts), k)
  {
    PointsConcat(ts[0].points, AllPoints(ts[1..]), k);
    if t != ts[0] { PointsHas(ts[1..], t, k, n); }
  }

  lemma HistoryHas(ts: seq<Table>, t: Table, k: Key, n: nat)
    requires t in ts && n in Says(OnDisk(t), k)
    ensures n in HistoryOf(ts, k)
  {
    if n in CoversOf(t.frags, k) { CoversHas(ts, t, k, n); } else { PointsHas(ts, t, k, n); }
  }

  /** Over separate, distinct tables the joint history is each table's own, and no range
      delete shares a sequence with a point. */
  lemma {:induction false} HistoryValue(ts: seq<Table>, t: Table, k: Key, n: nat)
    requires Separate(TableSources(ts), k) && (forall u :: u in ts ==> Distinct(OnDisk(u)))
    requires t in ts && n in Says(OnDisk(t), k)
    ensures n in HistoryOf(ts, k) && HistoryOf(ts, k)[n] == Says(OnDisk(t), k)[n]
    ensures n in PointsOf(AllPoints(ts), k) ==> n !in AllCovers(ts, k)
  {
    HistoryHas(ts, t, k, n);
    assert Distinct(OnDisk(t));
    if n in PointsOf(AllPoints(ts), k) {
      var u := PointsWhere(ts, k, n);
      OnlyOne(ts, t, u, k, n);
    }
    if n in AllCovers(ts, k) {
      var u := CoversWhere(ts, k, n);
      OnlyOne(ts, t, u, k, n);
    }
    if n in CoversOf(t.frags, k) { CoversHas(ts, t, k, n); }
  }

  lemma OnlyOne(ts: seq<Table>, t: Table, u: Table, k: Key, n: nat)
    requires Separate(TableSources(ts), k) && t in ts && u in ts
    requires n in Says(OnDisk(t), k) && n in Says(OnDisk(u), k)
    ensures t == u
  {
    var i :| 0 <= i < |ts| && ts[i] == t;
    var j :| 0 <= j < |ts| && ts[j] == u;
    assert TableSources(ts)[i] == OnDisk(t) && TableSources(ts)[j] == OnDisk(u);
  }
}
