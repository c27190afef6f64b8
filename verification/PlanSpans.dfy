/** `plan_spans`: where a job may be cut into spans, from table metadata alone. */
module PlanSpans {
  import opened Semantics
  import opened Fragments
  import opened Tables
  import opened OutputBuilder

  const U64_MAX: nat := 0xffff_ffff_ffff_ffff

  function Saturate(n: nat): nat
  {
    if n > U64_MAX then U64_MAX else n
  }

  /** `key_span`: the union of the tables' spans. */
  function JobMin(ts: seq<Table>): (m: Key)
    requires ts != []
    ensures forall i :: 0 <= i < |ts| ==> m <= SpanMin(ts[i])
  {
    if |ts| == 1 then SpanMin(ts[0])
    else
      var m := JobMin(ts[1..]);
      if m <= SpanMin(ts[0]) then m else SpanMin(ts[0])
  }

  function JobMax(ts: seq<Table>): (m: Key)
    requires ts != []
    ensures forall i :: 0 <= i < |ts| ==> SpanMax(ts[i]) <= m
  {
    if |ts| == 1 then SpanMax(ts[0])
    else
      var m := JobMax(ts[1..]);
      if m >= SpanMax(ts[0]) then m else SpanMax(ts[0])
  }

  /** Both ends of the span are some table's. */
  lemma {:induction false} SpanAttained(ts: seq<Table>)
    requires ts != []
    ensures exists i :: 0 <= i < |ts| && JobMin(ts) == SpanMin(ts[i])
    ensures exists i :: 0 <= i < |ts| && JobMax(ts) == SpanMax(ts[i])
  {
    assert ts[0] in ts;
    if |ts| == 1 {
      assert JobMin(ts) == SpanMin(ts[0]) && JobMax(ts) == SpanMax(ts[0]);
    } else {
      SpanAttained(ts[1..]);
      var i :| 0 <= i < |ts[1..]| && JobMin(ts[1..]) == SpanMin(ts[1..][i]);
      var j :| 0 <= j < |ts[1..]| && JobMax(ts[1..]) == SpanMax(ts[1..][j]);
      assert JobMin(ts) == SpanMin(ts[0]) || JobMin(ts) == SpanMin(ts[i + 1]);
      assert JobMax(ts) == SpanMax(ts[0]) || JobMax(ts) == SpanMax(ts[j + 1]);
    }
  }

  function MinKeys(ts: seq<Table>): (r: seq<Key>)
    ensures forall c :: c in r <==> exists t :: t in ts && t.minKey == c
  {
    if ts == [] then [] else [ts[0].minKey] + MinKeys(ts[1..])
  }

  /** The named partitions' start keys among the tables' bounds. */
  function Boundaries(p: Partitioner, ts: seq<Table>): (r: seq<Key>)
    ensures forall c :: c in r <==>
              exists t :: t in ts && (p.boundary(t.minKey) == Some(c) || p.boundary(t.maxKey) == Some(c))
  {
    if ts == [] then []
    else
      var a, b := p.boundary(ts[0].minKey), p.boundary(ts[0].maxKey);
      (if a.Some? then [a.value] else []) + (if b.Some? then [b.value] else []) + Boundaries(p, ts[1..])
  }

  /** Subsequence of the keys that pass a test. */
  function Retain(ks: seq<Key>, keep: Key -> bool): (r: seq<Key>)
    ensures Ascending(ks) ==> Ascending(r)
    ensures forall x :: x in r <==> x in ks && keep(x)
  {
    if ks == [] then []
    else
      var rest := Retain(ks[1..], keep);
      assert forall i :: 0 <= i < |rest| ==> rest[i] in rest;
      if keep(ks[0]) then [ks[0]] + rest else rest
  }

  function BytesBelow(ts: seq<Table>, bytes: Table -> nat, c: Key): nat
  {
    if ts == [] then 0
    else Saturate(BytesBelow(ts[1..], bytes, c) + if ts[0].maxKey < c then bytes(ts[0]) else 0)
  }

  function Sum(ts: seq<Table>, bytes: Table -> nat): nat
  {
    if ts == [] then 0 else bytes(ts[0]) + Sum(ts[1..], bytes)
  }

  function EndingBelow(ts: seq<Table>, c: Key): (r: seq<Table>)
    ensures forall t :: t in r <==> t in ts && t.maxKey < c
  {
    if ts == [] then [] else (if ts[0].maxKey < c then [ts[0]] else []) + EndingBelow(ts[1..], c)
  }

  /** Saturating as it goes, the weight is the saturated sum. */
  lemma {:induction false} BytesExact(ts: seq<Table>, bytes: Table -> nat, c: Key)
    ensures BytesBelow(ts, bytes, c) == Saturate(Sum(EndingBelow(ts, c), bytes))
    ensures TotalBytes(ts, bytes) == Saturate(Sum(ts, bytes))
  {
    if ts == [] {
    } else {
      BytesExact(ts[1..], bytes, c);
      var rest := EndingBelow(ts[1..], c);
      assert [] + rest == rest && ([ts[0]] + rest)[1..] == rest;
    }
  }

  function TotalBytes(ts: seq<Table>, bytes: Table -> nat): nat
  {
    if ts == [] then 0 else Saturate(TotalBytes(ts[1..], bytes) + bytes(ts[0]))
  }

  function Distance(a: nat, b: nat): nat
  {
    if a < b then b - a else a - b
  }

  /** The first unchosen position whose weight is nearest the goal. */
  predicate FirstNearest(weights: seq<nat>, chosen: set<nat>, goal: nat, pick: nat)
  {
    && pick < |weights| && pick !in chosen
    && (forall i :: 0 <= i < |weights| && i !in chosen ==> Distance(weights[pick], goal) <= Distance(weights[i], goal))
    && (forall i :: 0 <= i < pick && i !in chosen ==> Distance(weights[pick], goal) < Distance(weights[i], goal))
  }

  method Nearest(weights: seq<nat>, chosen: set<nat>, goal: nat) returns (pick: Option<nat>)
    ensures pick.None? <==> forall i :: 0 <= i < |weights| ==> i in chosen
    ensures pick.Some? ==> FirstNearest(weights, chosen, goal, pick.value)
  {
    pick := None;
    var i := 0;
    while i < |weights|
      invariant 0 <= i <= |weights|
      invariant pick.None? <==> forall j :: 0 <= j < i ==> j in chosen
      invariant pick.Some? ==> pick.value < i && pick.value !in chosen
      invariant pick.Some? ==> forall j :: 0 <= j < i && j !in chosen ==>
                  Distance(weights[pick.value], goal) <= Distance(weights[j], goal)
      invariant pick.Some? ==> forall j :: 0 <= j < pick.value && j !in chosen ==>
                  Distance(weights[pick.value], goal) < Distance(weights[j], goal)
    {
      if i !in chosen && (pick.None? || Distance(weights[i], goal) < Distance(weights[pick.value], goal)) {
        pick := Some(i);
      }
      i := i + 1;
    }
  }

  /** The candidates at the chosen positions, in order. */
  function PickAt(ks: seq<Key>, chosen: set<nat>, from: nat): (r: seq<Key>)
    requires from <= |ks|
    ensures Ascending(ks) ==> Ascending(r)
    ensures forall x :: x in r ==> x in ks[from..]
    decreases |ks| - from
  {
    if from == |ks| then []
    else
      var rest := PickAt(ks, chosen, from + 1);
      assert forall i :: 0 <= i < |rest| ==> rest[i] in rest;
      if from in chosen then [ks[from]] + rest else rest
  }

  lemma {:induction false} PickSize(ks: seq<Key>, chosen: set<nat>, from: nat)
    requires from <= |ks| && forall i :: i in chosen ==> from <= i < |ks|
    ensures |PickAt(ks, chosen, from)| == |chosen|
    decreases |ks| - from
  {
    if from < |ks| {
      if from in chosen {
        PickSkip(ks, chosen, from, from + 1);
        PickSize(ks, chosen - {from}, from + 1);
      } else {
        PickSize(ks, chosen, from + 1);
      }
    } else {
      assert chosen == {};
    }
  }

  lemma {:induction false} PickSkip(ks: seq<Key>, chosen: set<nat>, gone: nat, from: nat)
    requires gone < from <= |ks|
    ensures PickAt(ks, chosen - {gone}, from) == PickAt(ks, chosen, from)
    decreases |ks| - from
  {
    if from < |ks| { PickSkip(ks, chosen, gone, from + 1); }
  }

  /** Exactly the keys at chosen positions. */
  lemma {:induction false} PickIn(ks: seq<Key>, chosen: set<nat>, from: nat, x: Key)
    requires from <= |ks|
    ensures x in PickAt(ks, chosen, from) <==> exists i :: from <= i < |ks| && i in chosen && ks[i] == x
    decreases |ks| - from
  {
    if from < |ks| { PickIn(ks, chosen, from + 1, x); }
  }

  /** Too few choices leave an index unchosen. */
  lemma {:induction false} SomeUnchosen(chosen: set<nat>, n: nat)
    requires |chosen| < n
    ensures exists i :: 0 <= i < n && i !in chosen
  {
    if n - 1 in chosen {
      SomeUnchosen(chosen - {n - 1}, n - 1);
      var i :| 0 <= i < n - 1 && i !in chosen - {n - 1};
      assert i !in chosen;
    } else {
      assert 0 <= n - 1 < n;
    }
  }

  /** The `k`-th of `wanted` even byte fractions. */
  function Goal(total: nat, wanted: nat, k: nat): nat
  {
    Saturate(total / (wanted + 1) * k)
  }

  function Weights(ks: seq<Key>, weighed: seq<Table>, bytes: Table -> nat): (r: seq<nat>)
    ensures |r| == |ks|
  {
    seq(|ks|, i requires 0 <= i < |ks| => BytesBelow(weighed, bytes, ks[i]))
  }

  /** The positions picked so far, the `k`-th nearest the `k`-th even byte fraction. */
  ghost predicate EvenPicks(weights: seq<nat>, total: nat, wanted: nat, picks: seq<nat>)
  {
    forall k :: 0 <= k < |picks| ==>
      FirstNearest(weights, Indices(picks[..k]), Goal(total, wanted, k + 1), picks[k])
  }

  function Indices(picks: seq<nat>): set<nat>
  {
    set i | i in picks
  }

  lemma OneMorePick(weights: seq<nat>, total: nat, wanted: nat, picks: seq<nat>, pick: nat)
    requires EvenPicks(weights, total, wanted, picks)
    requires FirstNearest(weights, Indices(picks), Goal(total, wanted, |picks| + 1), pick)
    ensures EvenPicks(weights, total, wanted, picks + [pick]) && Indices(picks + [pick]) == Indices(picks) + {pick}
  {
    hide FirstNearest;
    var more := picks + [pick];
    forall k | 0 <= k < |more|
      ensures FirstNearest(weights, Indices(more[..k]), Goal(total, wanted, k + 1), more[k])
    {
      assert more[..k] == picks[..k];
      if k == |picks| { assert picks[..k] == picks; }
    }
  }

  /** Keep exactly `wanted` candidates, each nearest its even byte fraction among those not
      yet taken. */
  method Sample(ks: seq<Key>, weighed: seq<Table>, bytes: Table -> nat, wanted: nat)
    returns (r: seq<Key>, ghost picks: seq<nat>)
    requires Ascending(ks) && wanted <= |ks|
    ensures Ascending(r) && |r| == wanted == |picks|
    ensures forall x :: x in r ==> x in ks
    ensures EvenPicks(Weights(ks, weighed, bytes), TotalBytes(weighed, bytes), wanted, picks)
    ensures r == PickAt(ks, Indices(picks), 0)
  {
    hide FirstNearest, EvenPicks, PickAt, Goal, Weights;
    var weights := Weights(ks, weighed, bytes);
    var total := TotalBytes(weighed, bytes);
    var chosen: set<nat> := {};
    picks := [];
    NoPicks(weights, total, wanted);
    var k := 1;
    while k <= wanted
      invariant 1 <= k <= wanted + 1 && |picks| == k - 1 && chosen == Indices(picks)
      invariant |chosen| == k - 1 && (forall i :: i in chosen ==> i < |ks|) && EvenPicks(weights, total, wanted, picks)
    {
      var goal := Goal(total, wanted, k);
      SomeUnchosen(chosen, |ks|);
      var pick := Nearest(weights, chosen, goal);
      OneMorePick(weights, total, wanted, picks, pick.value);
      NearestIs(weights, chosen, goal, pick.value);
      chosen, picks := chosen + {pick.value}, picks + [pick.value];
      k := k + 1;
    }
    PickSize(ks, chosen, 0);
    r := PickAt(ks, chosen, 0);
    assert ks[0..] == ks;
  }

  lemma NoPicks(weights: seq<nat>, total: nat, wanted: nat)
    ensures EvenPicks(weights, total, wanted, []) && Indices([]) == {}
  {
  }

  lemma NearestIs(weights: seq<nat>, chosen: set<nat>, goal: nat, pick: nat)
    requires FirstNearest(weights, chosen, goal, pick)
    ensures pick < |weights| && pick !in chosen
  {
  }

  /** Some input holds keys in the span that would end at `c`. */
  ghost predicate Occupied(inputs: seq<Table>, previous: Option<Key>, c: Key)
  {
    exists i :: 0 <= i < |inputs| && inputs[i].minKey < c && (previous.Some? ==> previous.value <= inputs[i].maxKey)
  }

  method IsOccupied(inputs: seq<Table>, previous: Option<Key>, c: Key) returns (b: bool)
    ensures b <==> Occupied(inputs, previous, c)
  {
    var i := 0;
    while i < |inputs|
      invariant 0 <= i <= |inputs|
      invariant forall j :: 0 <= j < i ==>
                  !(inputs[j].minKey < c && (previous.Some? ==> previous.value <= inputs[j].maxKey))
    {
      if inputs[i].minKey < c && (previous.None? || previous.value <= inputs[i].maxKey) { return true; }
      i := i + 1;
    }
    return false;
  }

  predicate Names(p: Option<Partitioner>, inputs: seq<Table>)
  {
    p.Some? && Boundaries(p.value, inputs) != []
  }

  /** A cut a partitioned job may use: a partition's own start, or in no named partition. */
  predicate Cuttable(p: Option<Partitioner>, inputs: seq<Table>, c: Key)
  {
    Names(p, inputs) ==> Screened(p.value, c)
  }

  /** What a resolver promises: a key's partition starts at or before it, and owns its start. */
  ghost predicate Regular(p: Partitioner)
  {
    forall x: Key :: p.boundary(x).Some? ==>
      p.boundary(x).value <= x && p.boundary(p.boundary(x).value) == p.boundary(x)
  }

  /** No partition has a hole: between two of its keys lie only its keys. */
  ghost predicate Contiguous(p: Partitioner)
  {
    forall x: Key, c: Key, y: Key :: x < c <= y && p.boundary(x).Some? && p.boundary(x) == p.boundary(y) ==>
      p.boundary(c) == p.boundary(x)
  }

  /** A cut at `c` leaves keys of one named partition on both sides. */
  ghost predicate Halves(p: Partitioner, c: Key)
  {
    exists x: Key, y: Key :: x < c <= y && p.boundary(x).Some? && p.boundary(x) == p.boundary(y)
  }

  predicate Screened(p: Partitioner, c: Key)
  {
    p.boundary(c) == None || p.boundary(c) == Some(c)
  }

  /** The screen never lets a halving cut by, where partitions have no holes, and never
      refuses a cut that halves nothing. */
  lemma ScreenedExact(p: Partitioner, c: Key)
    requires Regular(p)
    ensures !Halves(p, c) ==> Screened(p, c)
    ensures Contiguous(p) ==> (Screened(p, c) <==> !Halves(p, c))
  {
    if !Screened(p, c) {
      var b := p.boundary(c).value;
      assert b < c && p.boundary(b) == p.boundary(c);
    }
    if Contiguous(p) && Halves(p, c) {
      var x: Key, y: Key :| x < c <= y && p.boundary(x).Some? && p.boundary(x) == p.boundary(y);
      assert p.boundary(c) == p.boundary(x);
    }
  }

  /** A hole lets some halving cut pass the screen. */
  lemma HoleHalves(p: Partitioner, x: Key, c: Key, y: Key) returns (cut: Key)
    requires Regular(p) && x < c <= y && p.boundary(x).Some? && p.boundary(x) == p.boundary(y) != p.boundary(c)
    ensures Screened(p, cut) && Halves(p, cut)
  {
    var b := p.boundary(x).value;
    if p.boundary(c) == None || p.boundary(c).value > x {
      cut := if p.boundary(c).None? then c else p.boundary(c).value;
      assert x < cut <= y;
    } else {
      var d := p.boundary(c).value;
      cut := if b > d then b else d;
      assert if b > d then d < cut <= c && p.boundary(d) == p.boundary(c)
          else b < cut <= x && p.boundary(b) == p.boundary(x);
    }
  }

  /** The screen keeps every partition whole exactly when no partition has a hole. */
  lemma ScreenExact(p: Partitioner)
    requires Regular(p)
    ensures (forall c: Key :: Screened(p, c) ==> !Halves(p, c)) <==> Contiguous(p)
  {
    forall c: Key ensures Contiguous(p) && Screened(p, c) ==> !Halves(p, c) { ScreenedExact(p, c); }
    if !Contiguous(p) {
      var x: Key, c: Key, y: Key :| x < c <= y && p.boundary(x).Some? && p.boundary(x) == p.boundary(y)
          && p.boundary(c) != p.boundary(x);
      var cut := HoleHalves(p, x, c, y);
    }
  }

  /** A prefix rule nested in another: `[3, 5)` inside `[0, 10)`. */
  function NestedBoundary(x: Key): Option<Key>
  {
    if 3.0 <= x < 5.0 then Some(3.0) else if 0.0 <= x < 10.0 then Some(0.0) else None
  }

  /** The cut at a nested partition's start passes the screen and halves the outer one. */
  lemma NestedHalved(p: Partitioner)
    requires p.boundary == NestedBoundary
    ensures Regular(p) && !Contiguous(p)
    ensures Screened(p, 3.0) && Halves(p, 3.0)
  {
    assert p.boundary(2.0) == p.boundary(6.0) == Some(0.0);
    ScreenedExact(p, 3.0);
  }

  /** Where a job may be cut, before screening: partition starts and target tables'
      first keys, or failing both the inputs' own first keys. */
  function Offered(inputs: seq<Table>, targets: seq<Table>, p: Option<Partitioner>): seq<Key>
  {
    var ks := (if Names(p, inputs) then Boundaries(p.value, inputs) else []) + MinKeys(targets);
    if ks == [] then MinKeys(inputs) else ks
  }

  /** A key the job may be cut at. */
  predicate Splits(inputs: seq<Table>, targets: seq<Table>, p: Option<Partitioner>, bytewise: bool, c: Key)
    requires inputs != []
  {
    && (Names(p, inputs) ==> bytewise)
    && c in Offered(inputs, targets, p) && JobMin(inputs) < c <= JobMax(inputs) && Cuttable(p, inputs, c)
  }

  /** Sorted, distinct split points strictly inside the job's key span. */
  method Candidates(inputs: seq<Table>, targets: seq<Table>, partitioner: Option<Partitioner>, bytewise: bool)
    returns (ks: seq<Key>)
    requires inputs != []
    ensures Ascending(ks)
    ensures forall c :: c in ks <==> Splits(inputs, targets, partitioner, bytewise, c)
  {
    hide Cuttable, JobMin, JobMax;
    var active := Names(partitioner, inputs);
    if active && !bytewise { return []; }
    ks := (if active then Boundaries(partitioner.value, inputs) else []) + MinKeys(targets);
    if ks == [] { ks := MinKeys(inputs); }
    ks := Retain(ks, c => Cuttable(partitioner, inputs, c));
    ks := SortKeys(ks);
    var lo, hi := JobMin(inputs), JobMax(inputs);
    ks := Retain(ks, c => lo < c <= hi);
  }

  function Previous(cuts: seq<Key>): Option<Key>
  {
    if cuts == [] then None else Some(cuts[|cuts| - 1])
  }

  /** The last cut before `c`. */
  function LastBefore(cuts: seq<Key>, c: Key): Option<Key>
  {
    if cuts == [] then None
    else if cuts[|cuts| - 1] < c then Some(cuts[|cuts| - 1])
    else LastBefore(cuts[..|cuts| - 1], c)
  }

  /** A candidate is a cut exactly when some input has keys between it and the cut before. */
  ghost predicate CutsOccupied(inputs: seq<Table>, candidates: seq<Key>, cuts: seq<Key>)
  {
    forall c :: c in candidates ==> (c in cuts <==> Occupied(inputs, LastBefore(cuts, c), c))
  }

  lemma OneMoreCandidate(inputs: seq<Table>, seen: seq<Key>, cuts: seq<Key>, c: Key, occupied: bool)
    requires CutsOccupied(inputs, seen, cuts) && (occupied <==> Occupied(inputs, Previous(cuts), c))
    requires (forall x :: x in seen ==> x < c) && forall x :: x in cuts ==> x in seen
    ensures CutsOccupied(inputs, seen + [c], if occupied then cuts + [c] else cuts)
  {
    hide Occupied;
    var after := if occupied then cuts + [c] else cuts;
    assert cuts != [] ==> cuts[|cuts| - 1] in cuts;
    assert (cuts + [c])[..|cuts|] == cuts;
    forall x | x in seen + [c]
      ensures LastBefore(after, x) == LastBefore(cuts, x) && (x == c ==> LastBefore(after, x) == Previous(cuts))
    {
    }
  }

  lemma AscendingBefore(ks: seq<Key>, i: nat)
    requires Ascending(ks) && i < |ks|
    ensures forall x :: x in ks[..i] ==> x < ks[i]
  {
  }

  lemma AscendingGrows(candidates: seq<Key>, cuts: seq<Key>, i: nat)
    requires Ascending(candidates) && Ascending(cuts) && i < |candidates|
    requires forall c :: c in cuts ==> c in candidates[..i]
    ensures Ascending(cuts + [candidates[i]])
  {
    forall j | 0 <= j < |cuts| ensures cuts[j] < candidates[i] { assert cuts[j] in cuts; }
  }

  /** Drop the candidates that would open an empty span. */
  method DropEmpty(inputs: seq<Table>, candidates: seq<Key>) returns (cuts: seq<Key>)
    requires Ascending(candidates)
    ensures Ascending(cuts) && |cuts| <= |candidates|
    ensures forall c :: c in cuts ==> c in candidates
    ensures CutsOccupied(inputs, candidates, cuts)
  {
    cuts := [];
    assert CutsOccupied(inputs, candidates[..0], cuts) && Ascending(cuts);
    hide CutsOccupied, Occupied, Previous, Ascending;
    var i := 0;
    while i < |candidates|
      invariant 0 <= i <= |candidates|
      invariant |cuts| <= i && Ascending(cuts)
      invariant forall c :: c in cuts ==> c in candidates[..i]
      invariant CutsOccupied(inputs, candidates[..i], cuts)
    {
      var occupied := IsOccupied(inputs, Previous(cuts), candidates[i]);
      AscendingBefore(candidates, i);
      OneMoreCandidate(inputs, candidates[..i], cuts, candidates[i], occupied);
      assert candidates[..i + 1] == candidates[..i] + [candidates[i]];
      if occupied {
        AscendingGrows(candidates, cuts, i);
        cuts := cuts + [candidates[i]];
      }
      i := i + 1;
    }
  }

  /** The candidates that are left for `most` cuts: all of them, or those at the even picks. */
  ghost predicate Sampled(candidates: seq<Key>, weighed: seq<Table>, bytes: Table -> nat, most: nat, picks: seq<nat>,
                          kept: seq<Key>)
  {
    if |candidates| <= most then kept == candidates
    else
      && |picks| == most && EvenPicks(Weights(candidates, weighed, bytes), TotalBytes(weighed, bytes), most, picks)
      && kept == PickAt(candidates, Indices(picks), 0)
  }

  /** The cuts of a job: every splitting key is a candidate; of those left, each is a cut
      exactly when some input has keys between it and the cut before. */
  ghost predicate Planned(inputs: seq<Table>, targets: seq<Table>, p: Option<Partitioner>, bytewise: bool,
                          bytes: Table -> nat, maxSpans: nat, candidates: seq<Key>, picks: seq<nat>, kept: seq<Key>,
                          cuts: seq<Key>)
    requires inputs != [] && maxSpans > 1
  {
    && Ascending(candidates) && (forall c :: c in candidates <==> Splits(inputs, targets, p, bytewise, c))
    && Sampled(candidates, if targets == [] then inputs else targets, bytes, maxSpans - 1, picks, kept)
    && Ascending(cuts) && (forall c :: c in cuts ==> c in kept) && CutsOccupied(inputs, kept, cuts)
  }

  lemma {:induction false} PlanBounds(inputs: seq<Table>, targets: seq<Table>, p: Option<Partitioner>, bytewise: bool,
                                      bytes: Table -> nat,
                   maxSpans: nat, candidates: seq<Key>, picks: seq<nat>, kept: seq<Key>, cuts: seq<Key>, c: Key)
    requires inputs != [] && maxSpans > 1 && c in cuts
    requires Planned(inputs, targets, p, bytewise, bytes, maxSpans, candidates, picks, kept, cuts)
    ensures JobMin(inputs) < c <= JobMax(inputs) && Cuttable(p, inputs, c) && Occupied(inputs, LastBefore(cuts, c), c)
    ensures Names(p, inputs) && Regular(p.value) && Contiguous(p.value) ==> !Halves(p.value, c)
  {
    hide EvenPicks, Occupied, Weights, Offered, Cuttable, Regular, Contiguous, Halves, Ascending;
    assert candidates[0..] == candidates;
    assert c in candidates;
    if Names(p, inputs) && Regular(p.value) && Contiguous(p.value) { UncutPartitions(p, inputs, c); }
  }

  method PlanCuts(inputs: seq<Table>, targets: seq<Table>, partitioner: Option<Partitioner>, bytewise: bool,
                  bytes: Table -> nat, maxSpans: nat)
    returns (cuts: seq<Key>, ghost candidates: seq<Key>, ghost picks: seq<nat>, ghost kept: seq<Key>)
    requires inputs != [] && maxSpans > 1
    ensures |cuts| < maxSpans
    ensures Planned(inputs, targets, partitioner, bytewise, bytes, maxSpans, candidates, picks, kept, cuts)
  {
    hide EvenPicks, PickAt, Weights, Splits, Ascending, CutsOccupied;
    picks := [];
    var ks := Candidates(inputs, targets, partitioner, bytewise);
    candidates := ks;
    if |ks| > maxSpans - 1 {
      ks, picks := Sample(ks, if targets == [] then inputs else targets, bytes, maxSpans - 1);
    }
    kept := ks;
    cuts := DropEmpty(inputs, ks);
  }

  /** The cuts between spans: at most `maxSpans - 1` of them, in order. */
  method Plan(inputs: seq<Table>, targets: seq<Table>, partitioner: Option<Partitioner>, bytewise: bool,
              bytes: Table -> nat, maxSpans: nat)
    returns (cuts: seq<Key>, ghost candidates: seq<Key>, ghost picks: seq<nat>, ghost kept: seq<Key>)
    ensures Ascending(cuts)
    ensures |cuts| + 1 <= if maxSpans < 1 then 1 else maxSpans
    ensures maxSpans <= 1 || inputs == [] ==> cuts == []
    ensures maxSpans > 1 && inputs != [] ==>
              Planned(inputs, targets, partitioner, bytewise, bytes, maxSpans, candidates, picks, kept, cuts)
    ensures forall c :: c in cuts ==> JobMin(inputs) < c <= JobMax(inputs) && Cuttable(partitioner, inputs, c)
    ensures Names(partitioner, inputs) && Regular(partitioner.value) && Contiguous(partitioner.value) ==>
              forall c :: c in cuts ==> !Halves(partitioner.value, c)
    ensures forall c :: c in cuts ==> Occupied(inputs, LastBefore(cuts, c), c)
  {
    hide Occupied, Cuttable, Regular, Contiguous, Halves, Sampled, CutsOccupied, Splits;
    cuts, candidates, picks, kept := [], [], [], [];
    if maxSpans <= 1 || inputs == [] { return; }
    cuts, candidates, picks, kept := PlanCuts(inputs, targets, partitioner, bytewise, bytes, maxSpans);
    forall c | c in cuts
      ensures JobMin(inputs) < c <= JobMax(inputs) && Cuttable(partitioner, inputs, c)
      ensures Occupied(inputs, LastBefore(cuts, c), c)
      ensures Names(partitioner, inputs) && Regular(partitioner.value) && Contiguous(partitioner.value) ==>
                !Halves(partitioner.value, c)
    {
      PlanBounds(inputs, targets, partitioner, bytewise, bytes, maxSpans, candidates, picks, kept, cuts, c);
    }
  }

  lemma UncutPartitions(p: Option<Partitioner>, inputs: seq<Table>, c: Key)
    requires Names(p, inputs) && Cuttable(p, inputs, c) && Regular(p.value) && Contiguous(p.value)
    ensures !Halves(p.value, c)
  {
    ScreenedExact(p.value, c);
  }

  // ---- the plan is determined ---------------------------------------------------------------------

  lemma {:induction false} AscendingSame(a: seq<Key>, b: seq<Key>)
    requires Ascending(a) && Ascending(b) && forall x :: x in a <==> x in b
    ensures a == b
  {
    assert (a != [] ==> a[0] in a) && (b != [] ==> b[0] in b);
    if a == [] {
    } else {
      assert a[0] == b[0];
      forall x ensures x in a[1..] <==> x in b[1..] { TailOf(a, x); TailOf(b, x); }
      AscendingSame(a[1..], b[1..]);
    }
  }

  lemma TailOf(a: seq<Key>, x: Key)
    requires Ascending(a) && a != []
    ensures x in a[1..] <==> x in a && x != a[0]
  {
    if x in a && x != a[0] {
      var i :| 0 <= i < |a| && a[i] == x;
      assert a[1..][i - 1] == x;
    }
  }

  lemma {:induction false} PicksSame(weights: seq<nat>, total: nat, wanted: nat, a: seq<nat>, b: seq<nat>)
    requires EvenPicks(weights, total, wanted, a) && EvenPicks(weights, total, wanted, b) && |a| == |b|
    ensures a == b
  {
    hide EvenPicks;
    if a == [] {
    } else {
      var k := |a| - 1;
      assert a[..k] + [a[k]] == a && b[..k] + [b[k]] == b;
      FewerPicks(weights, total, wanted, a);
      FewerPicks(weights, total, wanted, b);
      PicksSame(weights, total, wanted, a[..k], b[..k]);
    }
  }

  lemma FewerPicks(weights: seq<nat>, total: nat, wanted: nat, a: seq<nat>)
    requires EvenPicks(weights, total, wanted, a) && a != []
    ensures EvenPicks(weights, total, wanted, a[..|a| - 1])
    ensures FirstNearest(weights, Indices(a[..|a| - 1]), Goal(total, wanted, |a|), a[|a| - 1])
  {
    hide FirstNearest;
    var b := a[..|a| - 1];
    forall k | 0 <= k < |b| ensures FirstNearest(weights, Indices(b[..k]), Goal(total, wanted, k + 1), b[k]) {
      assert b[..k] == a[..k];
    }
  }

  /** The last cut before `c` is the greatest one below it. */
  lemma {:induction false} LastBeforeIs(cuts: seq<Key>, c: Key)
    requires Ascending(cuts)
    ensures LastBefore(cuts, c).None? <==> forall x :: x in cuts ==> x >= c
    ensures LastBefore(cuts, c).Some? ==>
              var m := LastBefore(cuts, c).value; m in cuts && m < c && forall x :: x in cuts && x < c ==> x <= m
  {
    if cuts == [] {
    } else {
      var n := |cuts| - 1;
      forall x ensures x in cuts <==> x in cuts[..n] || x == cuts[n] { assert cuts == cuts[..n] + [cuts[n]]; }
      forall x | x in cuts ensures x <= cuts[n] { var i :| 0 <= i < |cuts| && cuts[i] == x; }
      assert cuts[n] in cuts;
      if cuts[n] >= c { LastBeforeIs(cuts[..n], c); }
    }
  }

  lemma {:induction false} LastBeforeSame(a: seq<Key>, b: seq<Key>, c: Key)
    requires Ascending(a) && Ascending(b) && forall x :: x < c ==> (x in a <==> x in b)
    ensures LastBefore(a, c) == LastBefore(b, c)
  {
    LastBeforeIs(a, c);
    LastBeforeIs(b, c);
  }

  lemma {:induction false} CutsSame(inputs: seq<Table>, kept: seq<Key>, a: seq<Key>, b: seq<Key>, n: nat)
    requires Ascending(kept) && Ascending(a) && Ascending(b) && n <= |kept|
    requires (forall x :: x in a ==> x in kept) && forall x :: x in b ==> x in kept
    requires CutsOccupied(inputs, kept, a) && CutsOccupied(inputs, kept, b)
    ensures forall i :: 0 <= i < n ==> (kept[i] in a <==> kept[i] in b)
  {
    hide Occupied;
    if n > 0 {
      CutsSame(inputs, kept, a, b, n - 1);
      var c := kept[n - 1];
      forall x: Key | x < c ensures x in a <==> x in b {
        if x in a || x in b { var i :| 0 <= i < |kept| && kept[i] == x; }
      }
      LastBeforeSame(a, b, c);
      assert c in kept;
    }
  }

  /** A job has only one plan. */
  lemma PlanUnique(inputs: seq<Table>, targets: seq<Table>, p: Option<Partitioner>, bytewise: bool, bytes: Table -> nat,
                   maxSpans: nat, c1: seq<Key>, p1: seq<nat>, k1: seq<Key>, a: seq<Key>,
                   c2: seq<Key>, p2: seq<nat>, k2: seq<Key>, b: seq<Key>)
    requires inputs != [] && maxSpans > 1
    requires Planned(inputs, targets, p, bytewise, bytes, maxSpans, c1, p1, k1, a)
    requires Planned(inputs, targets, p, bytewise, bytes, maxSpans, c2, p2, k2, b)
    ensures a == b
  {
    hide Splits, CutsOccupied, Occupied, Offered, Cuttable, FirstNearest, PickAt, Weights, TotalBytes;
    AscendingSame(c1, c2);
    if |c1| > maxSpans - 1 {
      var weighed := if targets == [] then inputs else targets;
      PicksSame(Weights(c1, weighed, bytes), TotalBytes(weighed, bytes), maxSpans - 1, p1, p2);
    }
    CutsSame(inputs, k1, a, b, |k1|);
    forall x ensures x in a <==> x in b { if x in k1 { var i :| 0 <= i < |k1| && k1[i] == x; } }
    AscendingSame(a, b);
  }
}
