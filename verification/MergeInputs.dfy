/**
 The k-way merge under a compaction job: one stream in internal order, each
 sequence of a key once, first input's copy first.
 */
module MergeInputs {
  import opened Semantics
  import opened Fragments
  import opened Tables

  predicate SameSlot(a: Version, b: Version)
  {
    a.key == b.key && a.seqno == b.seqno
  }

  /** Insert in internal order; an equal slot is replaced. */
  function InsertVersion(vs: seq<Version>, v: Version): (r: seq<Version>)
  {
    if vs == [] then [v]
    else if Precedes(v, vs[0]) then [v] + vs
    else if SameSlot(v, vs[0]) then [v] + vs[1..]
    else [vs[0]] + InsertVersion(vs[1..], v)
  }

  /** The reference merge: sorted, and the first copy of each slot wins. */
  function Merged(vs: seq<Version>): seq<Version>
  {
    if vs == [] then [] else InsertVersion(Merged(vs[1..]), vs[0])
  }

  function InSpan(vs: seq<Version>, lower: Option<Key>, upper: Option<Key>): seq<Version>
  {
    if vs == [] then []
    else (if InBounds(vs[0].key, lower, upper) then [vs[0]] else []) + InSpan(vs[1..], lower, upper)
  }

  lemma SortedPrepend(v: Version, vs: seq<Version>)
    requires Sorted(vs) && (vs != [] ==> Precedes(v, vs[0]))
    ensures Sorted([v] + vs)
  {
    forall j | 0 <= j < |vs| ensures Precedes(v, vs[j]) {
      if j > 0 { assert Precedes(vs[0], vs[j]); }
    }
  }

  lemma {:induction false} InsertSorted(vs: seq<Version>, v: Version)
    requires Sorted(vs)
    ensures Sorted(InsertVersion(vs, v))
    ensures InsertVersion(vs, v) != []
    ensures (InsertVersion(vs, v)[0] == v || (vs != [] && InsertVersion(vs, v)[0] == vs[0]))
  {
    if vs == [] {
    } else if Precedes(v, vs[0]) {
      SortedPrepend(v, vs);
    } else if SameSlot(v, vs[0]) {
      if |vs| > 1 { assert Precedes(vs[0], vs[1]); }
      SortedPrepend(v, vs[1..]);
    } else {
      InsertSorted(vs[1..], v);
      if |vs| > 1 { assert Precedes(vs[0], vs[1]); }
      SortedPrepend(vs[0], InsertVersion(vs[1..], v));
    }
  }

  lemma {:induction false} MergedSorted(vs: seq<Version>)
    ensures Sorted(Merged(vs))
  {
    if vs == [] {
    } else {
      MergedSorted(vs[1..]);
      InsertSorted(Merged(vs[1..]), vs[0]);
    }
  }

  lemma {:induction false} InsertPoints(vs: seq<Version>, v: Version, k: Key)
    requires Sorted(vs)
    ensures PointsOf(InsertVersion(vs, v), k) ==
            if v.key == k then PointsOf(vs, k)[v.seqno := v.entry] else PointsOf(vs, k)
  {
    if vs == [] {
    } else if Precedes(v, vs[0]) {
    } else if SameSlot(v, vs[0]) {
    } else {
      InsertPoints(vs[1..], v, k);
      assert InsertVersion(vs, v)[1..] == InsertVersion(vs[1..], v);
    }
  }

  /** Merging loses no version and invents none. */
  lemma {:induction false} MergedPoints(vs: seq<Version>, k: Key)
    ensures PointsOf(Merged(vs), k) == PointsOf(vs, k)
  {
    if vs == [] {
    } else {
      MergedPoints(vs[1..], k);
      MergedSorted(vs[1..]);
      InsertPoints(Merged(vs[1..]), vs[0], k);
    }
  }

  lemma {:induction false} InSpanPoints(vs: seq<Version>, lower: Option<Key>, upper: Option<Key>, k: Key)
    ensures PointsOf(InSpan(vs, lower, upper), k) == if InBounds(k, lower, upper) then PointsOf(vs, k) else map[]
  {
    if vs == [] {
    } else {
      InSpanPoints(vs[1..], lower, upper, k);
      PointsConcat(if InBounds(vs[0].key, lower, upper) then [vs[0]] else [], InSpan(vs[1..], lower, upper), k);
    }
  }

  ghost predicate SamePoints(a: seq<Version>, b: seq<Version>)
  {
    forall k: Key :: PointsOf(a, k) == PointsOf(b, k)
  }

  lemma {:induction false} SortedAfterHead(vs: seq<Version>, k: Key, n: nat)
    requires Sorted(vs) && vs != [] && n in PointsOf(vs[1..], k)
    ensures Precedes(vs[0], Version(k, n, PointsOf(vs[1..], k)[n]))
  {
    var i := PointsWitness(vs[1..], k, n);
    assert Precedes(vs[0], vs[i + 1]);
  }

  /** Internal order leaves only one way to write a set of versions down. */
  lemma {:induction false} SortedUnique(a: seq<Version>, b: seq<Version>)
    requires Sorted(a) && Sorted(b) && SamePoints(a, b)
    ensures a == b
    decreases |a|
  {
    if a == [] {
      if b != [] {
        assert PointsOf(b, b[0].key) == PointsOf(a, b[0].key);
        PointsMember(b, b[0].key, 0);
      }
    } else {
      PointsMember(a, a[0].key, 0);
      assert PointsOf(a, a[0].key) == PointsOf(b, a[0].key);
      var i := PointsWitness(b, a[0].key, a[0].seqno);
      assert PointsOf(a, b[0].key) == PointsOf(b, b[0].key);
      PointsMember(b, b[0].key, 0);
      var j := PointsWitness(a, b[0].key, b[0].seqno);
      assert 0 < i ==> Precedes(b[0], b[i]);
      assert 0 < j ==> Precedes(a[0], a[j]);
      assert a[0] == b[0];
      forall k: Key ensures PointsOf(a[1..], k) == PointsOf(b[1..], k) {
        assert PointsOf(a, k) == PointsOf(b, k);
        TailPoints(a, k);
        TailPoints(b, k);
      }
      SortedUnique(a[1..], b[1..]);
    }
  }

  lemma {:induction false} TailPoints(vs: seq<Version>, k: Key)
    requires Sorted(vs) && vs != []
    ensures PointsOf(vs[1..], k) == if vs[0].key == k then PointsOf(vs, k) - {vs[0].seqno} else PointsOf(vs, k)
  {
    if vs[0].key == k && vs[0].seqno in PointsOf(vs[1..], k) {
      SortedAfterHead(vs, k, vs[0].seqno);
    }
  }

  lemma HeadFirst(vs: seq<Version>, v: Version)
    requires Sorted(vs)
    ensures v in vs ==> v == vs[0] || Precedes(vs[0], v)
  {
  }

  /** A sorted list whose members open another sorted list is its prefix. */
  lemma {:induction false} SortedPrefixOf(a: seq<Version>, b: seq<Version>)
    requires Sorted(a) && Sorted(b)
    requires forall x :: x in a ==> x in b
    requires forall y :: y in b ==> y in a || (a != [] ==> Precedes(a[|a| - 1], y))
    ensures a <= b
    decreases |a|
  {
    if a == [] {
    } else {
      assert a[0] in b && a[|a| - 1] in a;
      assert b != [] && b[0] in b;
      HeadFirst(b, a[0]);
      HeadFirst(a, a[|a| - 1]);
      HeadFirst(a, b[0]);
      assert b[0] == a[0];
      forall x | x in a[1..] ensures x in b[1..] {
        var j :| 1 <= j < |a| && a[j] == x;
        assert Precedes(a[0], x) && x in b;
      }
      forall y | y in b[1..] ensures y in a[1..] || (a[1..] != [] ==> Precedes(a[1..][|a[1..]| - 1], y)) {
        var j :| 1 <= j < |b| && b[j] == y;
        assert Precedes(b[0], y) && y in b;
      }
      SortedPrefixOf(a[1..], b[1..]);
    }
  }

  // ---- the merge loop ----------------------------------------------------------------

  function Flatten(inputs: seq<seq<Version>>): seq<Version>
  {
    if inputs == [] then [] else inputs[0] + Flatten(inputs[1..])
  }

  ghost predicate AllSorted(inputs: seq<seq<Version>>)
  {
    forall i :: 0 <= i < |inputs| ==> Sorted(inputs[i])
  }

  predicate Positions(inputs: seq<seq<Version>>, pos: seq<nat>)
  {
    |pos| == |inputs| && forall i :: 0 <= i < |pos| ==> pos[i] <= |inputs[i]|
  }

  /** The first input that holds a slot supplies it. */
  lemma {:induction false} FirstCopy(inputs: seq<seq<Version>>, b: nat, p: nat)
    requires AllSorted(inputs) && b < |inputs| && p < |inputs[b]|
    requires forall j, q :: 0 <= j < b && 0 <= q < |inputs[j]| ==> !SameSlot(inputs[j][q], inputs[b][p])
    ensures var v := inputs[b][p];
            v.seqno in PointsOf(Flatten(inputs), v.key) && PointsOf(Flatten(inputs), v.key)[v.seqno] == v.entry
  {
    var v := inputs[b][p];
    PointsConcat(inputs[0], Flatten(inputs[1..]), v.key);
    if b == 0 {
      SortedLookup(inputs[0], p);
    } else {
      if v.seqno in PointsOf(inputs[0], v.key) {
        var q := PointsWitness(inputs[0], v.key, v.seqno);
      }
      assert inputs[1..][b - 1] == inputs[b];
      forall j, q | 0 <= j < b - 1 && 0 <= q < |inputs[1..][j]| ensures !SameSlot(inputs[1..][j][q], v) {
        assert inputs[1..][j] == inputs[j + 1];
      }
      FirstCopy(inputs[1..], b - 1, p);
    }
  }

  lemma {:induction false} SortedLookup(vs: seq<Version>, p: nat)
    requires Sorted(vs) && p < |vs|
    ensures vs[p].seqno in PointsOf(vs, vs[p].key) && PointsOf(vs, vs[p].key)[vs[p].seqno] == vs[p].entry
  {
    PointsMember(vs, vs[p].key, p);
    var i := PointsWitness(vs, vs[p].key, vs[p].seqno);
  }

  /** Every slot of the flattened inputs comes from some input. */
  lemma {:induction false} FlattenWitness(inputs: seq<seq<Version>>, k: Key, n: nat) returns (i: nat, p: nat)
    requires n in PointsOf(Flatten(inputs), k)
    ensures i < |inputs| && p < |inputs[i]| && inputs[i][p].key == k && inputs[i][p].seqno == n
  {
    PointsConcat(inputs[0], Flatten(inputs[1..]), k);
    if n in PointsOf(inputs[0], k) {
      i := 0;
      p := PointsWitness(inputs[0], k, n);
    } else {
      i, p := FlattenWitness(inputs[1..], k, n);
      i := i + 1;
    }
  }

  /** `smallest_input`: the first input whose current version sorts first. */
  method SmallestInput(inputs: seq<seq<Version>>, pos: seq<nat>) returns (best: Option<nat>)
    requires Positions(inputs, pos)
    ensures best.None? ==> forall i :: 0 <= i < |inputs| ==> pos[i] == |inputs[i]|
    ensures best.Some? ==>
              && best.value < |inputs| && pos[best.value] < |inputs[best.value]|
              && (forall i :: 0 <= i < |inputs| && pos[i] < |inputs[i]| ==>
                    !Precedes(inputs[i][pos[i]], inputs[best.value][pos[best.value]]))
              && (forall i :: 0 <= i < best.value && pos[i] < |inputs[i]| ==>
                    !SameSlot(inputs[i][pos[i]], inputs[best.value][pos[best.value]]))
  {
    best := None;
    var i := 0;
    while i < |inputs|
      invariant 0 <= i <= |inputs|
      invariant best.None? ==> forall j :: 0 <= j < i ==> pos[j] == |inputs[j]|
      invariant best.Some? ==> best.value < i && pos[best.value] < |inputs[best.value]|
      invariant best.Some? ==> forall j :: 0 <= j < i && pos[j] < |inputs[j]| ==>
                  !Precedes(inputs[j][pos[j]], inputs[best.value][pos[best.value]])
      invariant best.Some? ==> forall j :: 0 <= j < best.value && pos[j] < |inputs[j]| ==>
                  !SameSlot(inputs[j][pos[j]], inputs[best.value][pos[best.value]])
    {
      if pos[i] < |inputs[i]| {
        if best.None? || Precedes(inputs[i][pos[i]], inputs[best.value][pos[best.value]]) {
          best := Some(i);
        }
      }
      i := i + 1;
    }
  }

  /** The first version at or past the span's lower bound. */
  method Seek(points: seq<Version>, lower: Option<Key>) returns (p: nat)
    requires Sorted(points)
    ensures p <= |points|
    ensures forall i :: 0 <= i < p ==> lower.Some? && points[i].key < lower.value
    ensures forall i :: p <= i < |points| ==> lower.Some? ==> lower.value <= points[i].key
  {
    p := 0;
    if lower.None? { return; }
    while p < |points| && points[p].key < lower.value
      invariant 0 <= p <= |points|
      invariant forall i :: 0 <= i < p ==> points[i].key < lower.value
    {
      p := p + 1;
    }
    forall i | p <= i < |points| ensures lower.value <= points[i].key {
      if p < i { assert Precedes(points[p], points[i]); }
    }
  }

  /** How many input versions are left. */
  function Left(inputs: seq<seq<Version>>, pos: seq<nat>): nat
    requires Positions(inputs, pos)
  {
    if inputs == [] then 0 else |inputs[0]| - pos[0] + Left(inputs[1..], pos[1..])
  }

  lemma {:induction false} LeftDrops(inputs: seq<seq<Version>>, pos: seq<nat>, b: nat)
    requires Positions(inputs, pos) && b < |inputs| && pos[b] < |inputs[b]|
    ensures Left(inputs, pos[b := pos[b] + 1]) == Left(inputs, pos) - 1
  {
    if b > 0 {
      LeftDrops(inputs[1..], pos[1..], b - 1);
      assert pos[b := pos[b] + 1][1..] == pos[1..][b - 1 := pos[b] + 1];
    } else {
      assert pos[0 := pos[0] + 1][1..] == pos[1..];
    }
  }

  /** Smallest heads of the inputs, without duplicates, up to the span's upper bound. */
  class InputCursors {
    const inputs: seq<seq<Version>>
    const lower: Option<Key>
    const upper: Option<Key>
    var pos: seq<nat>
    var prev: Option<Version>
    ghost var done: seq<Version>

    /** What was returned is a sorted prefix of the merge, and nothing left sorts before it. */
    ghost predicate Valid()
      reads this
    {
      && AllSorted(inputs) && Positions(inputs, pos)
      && Sorted(done)
      && prev == (if done == [] then None else Some(done[|done| - 1]))
      && (forall d :: d in done ==> InBounds(d.key, lower, upper) && FromInputs(d))
      && (forall i, p :: 0 <= i < |inputs| && 0 <= p < pos[i] && InBounds(inputs[i][p].key, lower, upper) ==>
          Returned(inputs[i][p]))
      && (forall i, p :: 0 <= i < |inputs| && pos[i] <= p < |inputs[i]| ==>
            && (lower.Some? ==> lower.value <= inputs[i][p].key)
            && (done != [] ==> !Precedes(inputs[i][p], done[|done| - 1])))
    }

    ghost predicate FromInputs(d: Version)
    {
      d.seqno in PointsOf(Flatten(inputs), d.key) && PointsOf(Flatten(inputs), d.key)[d.seqno] == d.entry
    }

    ghost predicate Returned(v: Version)
      reads this
    {
      exists d :: d in done && SameSlot(d, v)
    }
  
    constructor (inputs: seq<seq<Version>>, lower: Option<Key>, upper: Option<Key>)
      requires AllSorted(inputs)
      ensures Valid() && done == []
      ensures this.inputs == inputs && this.lower == lower && this.upper == upper
    {
      this.inputs, this.lower, this.upper := inputs, lower, upper;
      prev, done := None, [];
      pos := [];
      new;
      var i := 0;
      while i < |inputs|
        invariant 0 <= i <= |inputs| && |pos| == i && done == [] && prev == None
        invariant forall j :: 0 <= j < i ==> pos[j] <= |inputs[j]|
        invariant forall j, p :: 0 <= j < i && 0 <= p < pos[j] ==> !InBounds(inputs[j][p].key, lower, upper)
        invariant forall j, p :: 0 <= j < i && pos[j] <= p < |inputs[j]| ==> lower.Some? ==>
                    lower.value <= inputs[j][p].key
      {
        var p := Seek(inputs[i], lower);
        pos := pos + [p];
        i := i + 1;
      }
    }

    /** The slot of the chosen head has no copy in an earlier input. */
    lemma HeadIsFirst(b: nat)
      requires Valid() && b < |inputs| && pos[b] < |inputs[b]|
      requires InBounds(inputs[b][pos[b]].key, lower, upper)
      requires done != [] ==> !SameSlot(done[|done| - 1], inputs[b][pos[b]])
      requires forall i :: 0 <= i < |inputs| && pos[i] < |inputs[i]| ==> !Precedes(inputs[i][pos[i]], inputs[b][pos[b]])
      requires forall i :: 0 <= i < b && pos[i] < |inputs[i]| ==> !SameSlot(inputs[i][pos[i]], inputs[b][pos[b]])
      ensures FromInputs(inputs[b][pos[b]])
      ensures Sorted(done + [inputs[b][pos[b]]])
    {
      var v := inputs[b][pos[b]];
      forall d | d in done ensures Precedes(d, v) {
        var i :| 0 <= i < |done| && done[i] == d;
        if i < |done| - 1 { assert Precedes(done[i], done[|done| - 1]); }
      }
      forall j, q | 0 <= j < b && 0 <= q < |inputs[j]| ensures !SameSlot(inputs[j][q], v) {
        if q < pos[j] {
          assert SameSlot(inputs[j][q], v) ==> Returned(inputs[j][q]);
        } else if q > pos[j] {
          assert Precedes(inputs[j][pos[j]], inputs[j][q]);
        }
      }
      FirstCopy(inputs, b, pos[b]);
    }

    /** Once every head is past the upper bound, everything in the span was returned. */
    lemma AllReturned()
      requires Valid()
      requires forall i :: 0 <= i < |inputs| && pos[i] < |inputs[i]| ==>
                 upper.Some? && upper.value <= inputs[i][pos[i]].key
      ensures done == Merged(InSpan(Flatten(inputs), lower, upper))
    {
      var all := InSpan(Flatten(inputs), lower, upper);
      forall k: Key ensures PointsOf(done, k) == PointsOf(Merged(all), k) {
        MergedPoints(all, k);
        InSpanPoints(Flatten(inputs), lower, upper, k);
        forall n | n in PointsOf(done, k) ensures n in PointsOf(all, k) && PointsOf(done, k)[n] == PointsOf(all, k)[n] {
          var i := PointsWitness(done, k, n);
          assert done[i] in done;
        }
        forall n | n in PointsOf(all, k) ensures n in PointsOf(done, k) {
          var i, p := FlattenWitness(inputs, k, n);
          assert Returned(inputs[i][p]);
          var d :| d in done && SameSlot(d, inputs[i][p]);
          var q :| 0 <= q < |done| && done[q] == d;
          PointsMember(done, k, q);
        }
      }
      MergedSorted(all);
      SortedUnique(done, Merged(all));
    }
  
    /** What was returned so far is how the merge begins. */
    lemma DonePrefix()
      requires Valid()
      ensures done <= Merged(InSpan(Flatten(inputs), lower, upper))
    {
      var all := InSpan(Flatten(inputs), lower, upper);
      var full := Merged(all);
      MergedSorted(all);
      forall d | d in done ensures d in full {
        MergedPoints(all, d.key);
        InSpanPoints(Flatten(inputs), lower, upper, d.key);
        var i := PointsWitness(full, d.key, d.seqno);
      }
      forall f | f in full ensures f in done || (done != [] ==> Precedes(done[|done| - 1], f)) {
        RestFollows(f);
      }
      SortedPrefixOf(done, full);
    }

    lemma RestFollows(f: Version)
      requires Valid() && f in Merged(InSpan(Flatten(inputs), lower, upper))
      ensures f in done || (done != [] ==> Precedes(done[|done| - 1], f))
    {
      var all := InSpan(Flatten(inputs), lower, upper);
      var j :| 0 <= j < |Merged(all)| && Merged(all)[j] == f;
      MergedSorted(all);
      SortedLookup(Merged(all), j);
      MergedPoints(all, f.key);
      InSpanPoints(Flatten(inputs), lower, upper, f.key);
      var i, p := FlattenWitness(inputs, f.key, f.seqno);
      if p < pos[i] {
        assert Returned(inputs[i][p]);
        var d :| d in done && SameSlot(d, inputs[i][p]);
        assert FromInputs(d) && d == f;
      } else if done != [] {
        var last := done[|done| - 1];
        assert last in done && FromInputs(last);
        assert !Precedes(inputs[i][p], last);
        if SameSlot(last, f) { assert last == f; }
      }
    }

    /** The next version of the merge, or `None` at the end of the span. */
    method Next() returns (v: Option<Version>)
      requires Valid()
      modifies this
      ensures Valid()
      ensures v.Some? ==> done == old(done) + [v.value] && Left(inputs, pos) < old(Left(inputs, pos))
      ensures v.None? ==> done == old(done) && done == Merged(InSpan(Flatten(inputs), lower, upper))
      ensures v.None? ==> Left(inputs, pos) <= old(Left(inputs, pos))
    {
      while true
        invariant Valid() && done == old(done) && Left(inputs, pos) <= old(Left(inputs, pos))
        decreases Left(inputs, pos)
      {
        var b := SmallestInput(inputs, pos);
        if b.None? {
          AllReturned();
          return None;
        }
        var head := inputs[b.value][pos[b.value]];
        if upper.Some? && upper.value <= head.key {
          AllReturned();
          return None;
        }
        if prev.Some? && SameSlot(prev.value, head) {
          assert done[|done| - 1] in done;
          Skip(b.value);
        } else {
          HeadIsFirst(b.value);
          Take(b.value);
          return Some(head);
        }
      }
    }

    /** A second copy of the version just returned. */
    method Skip(b: nat)
      requires Valid() && b < |inputs| && pos[b] < |inputs[b]|
      requires Returned(inputs[b][pos[b]])
      modifies this`pos
      ensures Valid() && Left(inputs, pos) < old(Left(inputs, pos))
    {
      LeftDrops(inputs, pos, b);
      pos := pos[b := pos[b] + 1];
    }

    /** Return the chosen head. */
    method Take(b: nat)
      requires Valid() && b < |inputs| && pos[b] < |inputs[b]|
      requires InBounds(inputs[b][pos[b]].key, lower, upper) && FromInputs(inputs[b][pos[b]])
      requires Sorted(done + [inputs[b][pos[b]]])
      requires forall i :: 0 <= i < |inputs| && pos[i] < |inputs[i]| ==> !Precedes(inputs[i][pos[i]], inputs[b][pos[b]])
      modifies this
      ensures Valid() && done == old(done) + [old(inputs[b][pos[b]])]
      ensures Left(inputs, pos) < old(Left(inputs, pos))
    {
      hide FromInputs;
      var head := inputs[b][pos[b]];
      LeftDrops(inputs, pos, b);
      forall i, p | 0 <= i < |inputs| && pos[i] <= p < |inputs[i]| ensures !Precedes(inputs[i][p], head) {
        if pos[i] < p { assert Precedes(inputs[i][pos[i]], inputs[i][p]); }
      }
      pos := pos[b := pos[b] + 1];
      prev := Some(head);
      ghost var before := done;
      done := done + [head];
      assert forall d :: d in before ==> d in done;
      assert head in done;
    }
  }
}
