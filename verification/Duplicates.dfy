/** Finding a repeated column name: pairwise for few columns, linear probing for many. */
module Duplicates {
  import opened Semantics

  datatype Column = Column(name: seq<Byte>, value: seq<Byte>)

  /** Column `later` repeats the name of column `earlier`. */
  datatype Repeat = Repeat(later: nat, earlier: nat)

  const LINEAR_SCAN_MAX := 32

  /** The first `n` names are all different. */
  predicate NamesDiffer(cols: seq<Column>, n: nat)
    requires n <= |cols|
  {
    forall i, j :: 0 <= j < i < n ==> cols[i].name != cols[j].name
  }

  /** The first repeat, or none. */
  predicate FirstRepeat(cols: seq<Column>, r: Option<Repeat>)
  {
    match r
    case None => NamesDiffer(cols, |cols|)
    case Some(p) =>
      && p.earlier < p.later < |cols| && cols[p.later].name == cols[p.earlier].name
      && NamesDiffer(cols, p.later)
  }

  /** There is only one answer, so any two searches that meet the contract agree. */
  lemma FirstRepeatUnique(cols: seq<Column>, a: Option<Repeat>, b: Option<Repeat>)
    requires FirstRepeat(cols, a) && FirstRepeat(cols, b)
    ensures a == b
  {
  }

  method PairwiseScan(cols: seq<Column>) returns (r: Option<Repeat>)
    ensures FirstRepeat(cols, r)
  {
    var i := 1;
    while i < |cols|
      invariant 1 <= i && NamesDiffer(cols, if i <= |cols| then i else |cols|)
    {
      var j := 0;
      while j < i
        invariant 0 <= j <= i && forall k :: 0 <= k < j ==> cols[i].name != cols[k].name
      {
        if cols[i].name == cols[j].name { return Some(Repeat(i, j)); }
        j := j + 1;
      }
      i := i + 1;
    }
    return None;
  }

  // ---- the probe table ------------------------------------------------------------------------

  /** The slot `d` places along the probe path from `start`. */
  function Slot(start: nat, d: nat, size: nat): (p: nat)
    requires size > 0
    ensures p < size
  {
    (start + d) % size
  }

  /** Where each inserted name is, as a distance along its probe path. */
  ghost predicate Filed(table: seq<nat>, cols: seq<Column>, hash: seq<Byte> -> nat, dist: seq<nat>)
  {
    && |dist| <= |cols| && 0 < |table|
    && (forall j :: 0 <= j < |dist| ==> table[Slot(hash(cols[j].name), dist[j], |table|)] == j + 1)
    && (forall j, d: nat :: 0 <= j < |dist| && d < dist[j] ==> table[Slot(hash(cols[j].name), d, |table|)] != 0)
    && (forall p :: 0 <= p < |table| ==> table[p] <= |dist|)
    && (forall p, q :: 0 <= p < q < |table| && table[p] != 0 ==> table[p] != table[q])
  }

  lemma {:induction false} Pigeonhole(s: seq<nat>, n: nat)
    requires (forall p :: 0 <= p < |s| ==> s[p] < n) && (forall p, q :: 0 <= p < q < |s| ==> s[p] != s[q])
    ensures |s| <= n
  {
    if s == [] {
    } else {
      assert s[0] < n;
      if q :| 0 <= q < |s| && s[q] == n - 1 {
        Pigeonhole(s[..q] + s[q + 1..], n - 1);
      } else {
        Pigeonhole(s, n - 1);
      }
    }
  }

  /** A table without an empty slot holds as many names as it has slots. */
  lemma FullTable(table: seq<nat>, filed: nat)
    requires forall p :: 0 <= p < |table| ==> 0 < table[p] <= filed
    requires forall p, q :: 0 <= p < q < |table| ==> table[p] != table[q]
    ensures |table| <= filed
  {
    Pigeonhole(seq(|table|, p requires 0 <= p < |table| => table[p] - 1), filed);
  }

  /** A table with room has an empty slot, at some distance from any start. */
  lemma EmptySlot(table: seq<nat>, cols: seq<Column>, hash: seq<Byte> -> nat, dist: seq<nat>, start: nat)
    returns (d: nat)
    requires Filed(table, cols, hash, dist) && |dist| < |table|
    ensures table[Slot(start, d, |table|)] == 0
  {
    assert exists e :: 0 <= e < |table| && table[e] == 0 by {
      if forall e :: 0 <= e < |table| ==> table[e] != 0 { FullTable(table, |dist|); }
    }
    var e :| 0 <= e < |table| && table[e] == 0;
    var at := start % |table|;
    d := if e >= at then e - at else e + |table| - at;
    Wraps(start, |table|, d, e);
  }

  lemma Wraps(start: nat, size: nat, d: nat, e: nat)
    requires size > 0 && e < size && d == if e >= start % size then e - start % size else e + size - start % size
    ensures (start + d) % size == e
  {
    var q := start / size;
    Divided(start, size);
    if e >= start % size {
      ModUnique(q, size, e);
    } else {
      ModUnique(q + 1, size, e);
      NextMultiple(q, size);
    }
  }

  lemma Divided(x: nat, size: nat)
    requires size > 0
    ensures x == (x / size) * size + x % size
  {
  }

  lemma NextMultiple(q: nat, size: nat)
    ensures (q + 1) * size == q * size + size
  {
  }

  lemma ModUnique(q: nat, size: nat, e: nat)
    requires e < size
    ensures (q * size + e) % size == e
  {
    var x := q * size + e;
    assert x == (x / size) * size + x % size;
    var p := x / size;
    assert p < q ==> (p + 1) * size <= q * size;
    assert p > q ==> (q + 1) * size <= p * size;
  }

  /** The probe has passed `steps` slots, each holding some other name. */
  ghost predicate Passed(table: seq<nat>, cols: seq<Column>, filed: nat, start: nat, name: seq<Byte>, steps: nat)
    requires 0 < |table|
  {
    forall d: nat :: d < steps ==> Other(table, cols, filed, Slot(start, d, |table|), name)
  }

  predicate Other(table: seq<nat>, cols: seq<Column>, filed: nat, p: nat, name: seq<Byte>)
  {
    p < |table| && 0 < table[p] <= filed && table[p] <= |cols| && cols[table[p] - 1].name != name
  }

  /** If the probe of `name` meets an empty slot, no filed name equals it. */
  lemma ProbeMisses(table: seq<nat>, cols: seq<Column>, hash: seq<Byte> -> nat, dist: seq<nat>, name: seq<Byte>,
                    steps: nat)
    requires Filed(table, cols, hash, dist) && table[Slot(hash(name), steps, |table|)] == 0
    requires Passed(table, cols, |dist|, hash(name), name, steps)
    ensures forall j :: 0 <= j < |dist| ==> cols[j].name != name
  {
    forall j | 0 <= j < |dist| ensures cols[j].name != name {
      assert dist[j] < steps ==> Other(table, cols, |dist|, Slot(hash(name), dist[j], |table|), name);
    }
  }

  datatype Landing = Empty(slot: nat) | Taken(earlier: nat)

  /** Walk the probe path to the name or to an empty slot. */
  method Probe(table: array<nat>, cols: seq<Column>, i: nat, hash: seq<Byte> -> nat, ghost dist: seq<nat>)
    returns (r: Landing, ghost steps: nat)
    requires i < |cols| && |dist| == i && Filed(table[..], cols, hash, dist) && i < table.Length
    ensures r.Empty? ==> r.slot == Slot(hash(cols[i].name), steps, table.Length) && table[r.slot] == 0
    ensures r.Empty? ==> Passed(table[..], cols, i, hash(cols[i].name), cols[i].name, steps)
    ensures r.Taken? ==> r.earlier < i && cols[r.earlier].name == cols[i].name
  {
    hide Slot;
    var name := cols[i].name;
    var h := hash(name) % table.Length;
    FirstSlot(hash(name), table.Length);
    ghost var far := EmptySlot(table[..], cols, hash, dist, hash(name));
    steps := 0;
    while true
      invariant steps <= far && h == Slot(hash(name), steps, table.Length)
      invariant Passed(table[..], cols, i, hash(name), name, steps)
      decreases far - steps
    {
      if table[h] == 0 { return Empty(h), steps; }
      assert table[..][h] == table[h];
      var j := table[h] - 1;
      if cols[j].name == name { return Taken(j), steps; }
      NextSlot(hash(name), steps, table.Length);
      h := (h + 1) % table.Length;
      steps := steps + 1;
    }
  }

  /** Filing a new name in the slot its probe ended at. */
  lemma FileOne(table: seq<nat>, cols: seq<Column>, hash: seq<Byte> -> nat, dist: seq<nat>, steps: nat)
    requires Filed(table, cols, hash, dist) && |dist| < |cols|
    requires var i := |dist|;
             table[Slot(hash(cols[i].name), steps, |table|)] == 0
                 && Passed(table, cols, i, hash(cols[i].name), cols[i].name, steps)
    ensures var i := |dist|; Filed(table[Slot(hash(cols[i].name), steps, |table|) := i + 1], cols, hash, dist + [steps])
  {
    var i := |dist|;
    var h := Slot(hash(cols[i].name), steps, |table|);
    var t2, d2 := table[h := i + 1], dist + [steps];
    forall j, d: nat | 0 <= j < |d2| && d < d2[j] ensures t2[Slot(hash(cols[j].name), d, |table|)] != 0 {
      if j == i { assert Other(table, cols, i, Slot(hash(cols[i].name), d, |table|), cols[i].name); }
    }
  }

  function PowerAbove(n: nat, p: nat): (r: nat)
    requires p > 0
    ensures r >= n && r >= p
    decreases if n > p then n - p else 0
  {
    if p >= n then p else PowerAbove(n, 2 * p)
  }

  /** `find_duplicate`. The mask of a power-of-two table is the remainder by its size. */
  method FindDuplicate(cols: seq<Column>, hash: seq<Byte> -> nat) returns (r: Option<Repeat>)
    ensures FirstRepeat(cols, r)
  {
    if |cols| <= LINEAR_SCAN_MAX {
      r := PairwiseScan(cols);
      return;
    }
    var size := PowerAbove(2 * |cols|, 64);
    var table := new nat[size](_ => 0);
    ghost var dist: seq<nat> := [];
    var i: nat := 0;
    while i < |cols|
      invariant 0 <= i <= |cols| && |dist| == i && fresh(table) && Filed(table[..], cols, hash, dist)
      invariant NamesDiffer(cols, i)
    {
      ghost var steps;
      var landing;
      landing, steps := Probe(table, cols, i, hash, dist);
      if landing.Taken? { return Some(Repeat(i, landing.earlier)); }
      ProbeMisses(table[..], cols, hash, dist, cols[i].name, steps);
      FileOne(table[..], cols, hash, dist, steps);
      ghost var before: seq<nat> := table[..];
      table[landing.slot] := i + 1;
      assert table[..] == before[landing.slot := i + 1];
      dist := dist + [steps];
      i := i + 1;
    }
    return None;
  }

  lemma WrapOne(q: nat, e: nat, size: nat)
    requires e < size
    ensures (e + 1) % size == (q * size + e + 1) % size
  {
    if e + 1 < size {
      ModUnique(q, size, e + 1);
      ModUnique(0, size, e + 1);
    } else {
      ModUnique(q + 1, size, 0);
      ModUnique(1, size, 0);
      assert q * size + e + 1 == (q + 1) * size + 0;
    }
  }

  lemma FirstSlot(start: nat, size: nat)
    requires size > 0
    ensures Slot(start, 0, size) == start % size
  {
  }

  lemma NextSlot(start: nat, steps: nat, size: nat)
    requires size > 0
    ensures (Slot(start, steps, size) + 1) % size == Slot(start, steps + 1, size)
  {
    StepWraps(start + steps, size);
  }

  lemma StepWraps(x: nat, size: nat)
    requires size > 0
    ensures (x % size + 1) % size == (x + 1) % size
  {
    WrapOne(x / size, x % size, size);
    assert x == (x / size) * size + x % size;
  }
}
