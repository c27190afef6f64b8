/** Undoing an install: what rollback gives back, and when it keeps L0's order. */
module Rollback {
  import opened Semantics
  import opened Tables
  import opened Levels
  import opened Sources
  import opened Engine
  import opened EngineFinish
  import opened EngineJobs

  // ---- one level at a time ----------------------------------------------------------------

  function OfLevel(ts: seq<Table>, l: nat): seq<Table>
  {
    if ts == [] then [] else (if ts[0].level == l then [ts[0]] else []) + OfLevel(ts[1..], l)
  }

  /** What putting the inputs back does to level `l`. */
  function BackAt(ts: seq<Table>, inputs: seq<Table>, l: nat): seq<Table>
    decreases |inputs|
  {
    if inputs == [] then ts
    else if inputs[0].level != l || Holds(ts, inputs[0].id) then BackAt(ts, inputs[1..], l)
    else BackAt(if l == 0 then ts + [inputs[0]] else SortByMinKey(ts + [inputs[0]]), inputs[1..], l)
  }

  lemma {:induction false} PutAllBackAt(levels: Tree, inputs: seq<Table>, l: nat)
    requires forall t :: t in inputs ==> t.level < |levels|
    ensures |PutAllBack(levels, inputs)| == |levels|
    ensures LevelAt(PutAllBack(levels, inputs), l) == BackAt(LevelAt(levels, l), inputs, l)
    decreases |inputs|
  {
    if inputs == [] {
    } else {
      var next := PutBack(levels, inputs[0]);
      assert |next| == |levels|;
      forall t | t in inputs[1..] ensures t.level < |next| { assert t in inputs; }
      PutAllBackAt(next, inputs[1..], l);
    }
  }

  lemma NotHeld(ts: seq<Table>, t: Table)
    requires forall x :: x in ts ==> x.id != t.id
    ensures !Holds(ts, t.id)
  {
    forall i | 0 <= i < |ts| ensures ts[i].id != t.id { assert ts[i] in ts; }
  }

  /** No id of `a` is in `b`, and ids of `a` do not repeat. */
  ghost predicate FreshIds(a: seq<Table>, b: seq<Table>)
  {
    && (forall i, j :: 0 <= i < j < |a| ==> a[i].id != a[j].id)
    && (forall x, y :: x in a && y in b ==> x.id != y.id)
  }

  /** L0 gets its inputs appended, in list order. */
  lemma {:induction false} BackAtL0(ts: seq<Table>, inputs: seq<Table>)
    requires FreshIds(inputs, ts)
    ensures BackAt(ts, inputs, 0) == ts + OfLevel(inputs, 0)
    decreases |inputs|
  {
    if inputs == [] {
      assert ts + [] == ts;
    } else {
      var t, rest := inputs[0], inputs[1..];
      assert t in inputs;
      NotHeld(ts, t);
      FreshTail(inputs, ts);
      if t.level == 0 {
        FreshMoves(inputs, ts);
        BackAtL0(ts + [t], rest);
        assert ts + [t] + OfLevel(rest, 0) == ts + ([t] + OfLevel(rest, 0));
      } else {
        BackAtL0(ts, rest);
      }
    }
  }

  lemma FreshTail(inputs: seq<Table>, ts: seq<Table>)
    requires FreshIds(inputs, ts) && inputs != []
    ensures FreshIds(inputs[1..], ts)
  {
    assert forall x :: x in inputs[1..] ==> x in inputs;
  }

  lemma FreshMoves(inputs: seq<Table>, ts: seq<Table>)
    requires FreshIds(inputs, ts) && inputs != []
    ensures FreshIds(inputs[1..], ts + [inputs[0]])
  {
    var rest := inputs[1..];
    forall x, y | x in rest && y in ts + [inputs[0]] ensures x.id != y.id {
      var i :| 0 <= i < |rest| && rest[i] == x;
      assert inputs[i + 1] == x && x in inputs;
    }
  }

  // ---- sorted levels ------------------------------------------------------------------------

  predicate Ascends(ts: seq<Table>)
  {
    forall i, j :: 0 <= i < j < |ts| ==> ts[i].minKey < ts[j].minKey
  }

  predicate KeysDiffer(ts: seq<Table>)
  {
    forall i, j :: 0 <= i < j < |ts| ==> ts[i].minKey != ts[j].minKey
  }

  lemma {:induction false} InsertAscends(ts: seq<Table>, t: Table)
    requires Ascends(ts) && forall x :: x in ts ==> x.minKey != t.minKey
    ensures Ascends(InsertTable(ts, t))
  {
    if ts != [] && ts[0].minKey < t.minKey {
      InsertAscends(ts[1..], t);
      var rest := InsertTable(ts[1..], t);
      forall i | 0 <= i < |rest| ensures ts[0].minKey < rest[i].minKey { assert rest[i] in rest; }
    } else if ts != [] {
      assert ts[0] in ts;
    }
  }

  lemma {:induction false} SortAscends(ts: seq<Table>)
    requires KeysDiffer(ts)
    ensures Ascends(SortByMinKey(ts))
  {
    if ts == [] {
    } else {
      SortAscends(ts[1..]);
      InsertAscends(SortByMinKey(ts[1..]), ts[0]);
    }
  }

  /** A strictly ascending list is determined by its members. */
  lemma {:induction false} AscendingUnique(a: seq<Table>, b: seq<Table>)
    requires Ascends(a) && Ascends(b) && forall x :: x in a <==> x in b
    ensures a == b
  {
    assert (a != [] ==> a[0] in a) && (b != [] ==> b[0] in b);
    if a == [] {
    } else {
      var i :| 0 <= i < |b| && b[i] == a[0];
      var j :| 0 <= j < |a| && a[j] == b[0];
      assert a[0] == b[0];
      forall x ensures x in a[1..] <==> x in b[1..] { TailMember(a, x); TailMember(b, x); }
      AscendingUnique(a[1..], b[1..]);
    }
  }

  lemma TailMember(a: seq<Table>, x: Table)
    requires Ascends(a) && a != []
    ensures x in a[1..] <==> x in a && x != a[0]
  {
    if x in a && x != a[0] {
      var i :| 0 <= i < |a| && a[i] == x;
      assert a[1..][i - 1] == x;
    }
    if x in a[1..] { var i :| 0 <= i < |a[1..]| && a[1..][i] == x; }
  }

  lemma AppendDiffers(level: seq<Table>, ts: seq<Table>, t: Table)
    requires Ascends(level) && Ascends(ts) && t in level && (forall x :: x in ts ==> x in level && x.id != t.id)
    ensures KeysDiffer(ts + [t])
  {
    forall i | 0 <= i < |ts| ensures ts[i].minKey != t.minKey {
      assert ts[i] in ts;
      var a :| 0 <= a < |level| && level[a] == ts[i];
      var b :| 0 <= b < |level| && level[b] == t;
    }
  }

  /** A sorted level gets its inputs back in key order. */
  lemma {:induction false} BackSorted(level: seq<Table>, ts: seq<Table>, inputs: seq<Table>, l: nat)
    requires l >= 1 && Ascends(level) && Ascends(ts) && (forall x :: x in ts ==> x in level)
    requires (forall x :: x in inputs && x.level == l ==> x in level) && FreshIds(inputs, ts)
    ensures Ascends(BackAt(ts, inputs, l))
    ensures forall x :: x in BackAt(ts, inputs, l) <==> x in ts || (x in inputs && x.level == l)
    decreases |inputs|
  {
    if inputs == [] {
    } else {
      var t, rest := inputs[0], inputs[1..];
      assert t in inputs && forall x :: x in inputs <==> x == t || x in rest;
      NotHeld(ts, t);
      if t.level == l {
        AppendDiffers(level, ts, t);
        SortAscends(ts + [t]);
        FreshMoves(inputs, ts);
        assert forall x :: x in SortByMinKey(ts + [t]) <==> x in ts + [t];
        BackSorted(level, SortByMinKey(ts + [t]), rest, l);
      } else {
        FreshTail(inputs, ts);
        BackSorted(level, ts, rest, l);
      }
    }
  }

  // ---- install, then rollback ---------------------------------------------------------------

  /** The tree after tables `landed` were flushed onto it. */
  function Flushed(levels: Tree, landed: seq<Table>): Tree
    requires levels != []
  {
    [landed + levels[0]] + levels[1..]
  }

  /** An installed job that can be undone: inputs know their level, ids name tables. */
  ghost predicate Undoable(levels: Tree, p: Picked, outputs: seq<Table>, landed: seq<Table>)
  {
    && Finishing(levels, p, outputs) && levels != []
    && (forall t :: t in Inputs(p) ==> t.level < |levels| && t in levels[t.level])
    && (forall i, j :: 0 <= i < j < |Inputs(p)| ==> Inputs(p)[i].id != Inputs(p)[j].id)
    && (forall t, u :: t in landed && (u in Inputs(p) || u in outputs) ==> t.id != u.id)
  }

  function Undone(levels: Tree, p: Picked, outputs: seq<Table>, landed: seq<Table>): Tree
  {
    PutAllBack(DropIds(Flushed(Done(levels, p, outputs), landed), Ids(outputs)), Inputs(p))
  }

  lemma LevelAscends(level: seq<Table>)
    requires LevelOk(level)
    ensures Ascends(level)
  {
    forall i, j | 0 <= i < j < |level|
      ensures level[i].minKey < level[j].minKey
    {
      BelowStartsLower(level[i], level[j]);
    }
  }

  lemma {:induction false} WithoutAscends(ts: seq<Table>, ids: set<nat>)
    requires Ascends(ts)
    ensures Ascends(Without(ts, ids))
  {
    forall i, j | 0 <= i < j < |Without(ts, ids)| ensures Without(ts, ids)[i].minKey < Without(ts, ids)[j].minKey {
      var a, b := WithoutPicks(ts, ids, i, j);
    }
  }

  /** With the outputs gone, a sorted level is what it was without the inputs. */
  lemma DroppedMembers(levels: Tree, p: Picked, outputs: seq<Table>, landed: seq<Table>, l: nat, t: Table)
    requires Undoable(levels, p, outputs, landed) && 1 <= l < |Done(levels, p, outputs)|
    ensures t in Without(Done(levels, p, outputs)[l], Ids(outputs)) <==> t in LevelAt(levels, l) && t !in Inputs(p)
  {
    WithoutIn(Done(levels, p, outputs)[l], Ids(outputs), t);
    DoneMembers(levels, p, outputs, l, t);
    assert t in LevelAt(levels, l) ==> InTree(levels, t);
  }

  /** No table is on two levels. */
  lemma OneLevel(levels: Tree, t: Table, a: nat, b: nat)
    requires TablesOk(levels) && TreeOrdered(levels) && a < |levels| && b < |levels| && t in levels[a] && t in levels[b]
    ensures a == b
  {
    assert InTree(levels, t);
    TouchesSpanMin(t);
    SaysTouches(t, SpanMin(t));
    var n :| n in Says(OnDisk(t), SpanMin(t));
    assert a < b ==> NewerSource(OnDisk(t), OnDisk(t));
    assert b < a ==> NewerSource(OnDisk(t), OnDisk(t));
  }

  lemma {:induction false} BackGives(level: seq<Table>, ts: seq<Table>, inputs: seq<Table>, l: nat)
    requires l >= 1 && Ascends(level) && Ascends(ts) && (forall x :: x in ts <==> x in level && x !in inputs)
    requires (forall x :: x in inputs ==> (x.level == l <==> x in level)) && FreshIds(inputs, ts)
    ensures BackAt(ts, inputs, l) == level
  {
    BackSorted(level, ts, inputs, l);
    AscendingUnique(BackAt(ts, inputs, l), level);
  }

  lemma InputLevels(levels: Tree, p: Picked, outputs: seq<Table>, landed: seq<Table>, l: nat, x: Table)
    requires Undoable(levels, p, outputs, landed) && x in Inputs(p)
    ensures x.level == l <==> x in LevelAt(levels, l)
  {
    if x in LevelAt(levels, l) { OneLevel(levels, x, l, x.level); }
  }

  /** Every level below L0 is given back exactly. */
  lemma UndoneLevel(levels: Tree, p: Picked, outputs: seq<Table>, landed: seq<Table>, l: nat)
    requires Undoable(levels, p, outputs, landed) && 1 <= l < |Done(levels, p, outputs)|
    ensures LevelAt(Undone(levels, p, outputs, landed), l) == LevelAt(levels, l)
  {
    var done := Done(levels, p, outputs)[l];
    var ts, level := Without(done, Ids(outputs)), LevelAt(levels, l);
    PutAllBackAt(DropIds(Flushed(Done(levels, p, outputs), landed), Ids(outputs)), Inputs(p), l);
    DoneLevel(levels, p, outputs, l);
    LevelAscends(done);
    WithoutAscends(done, Ids(outputs));
    LevelAscends(level);
    forall x ensures x in ts <==> x in level && x !in Inputs(p) { DroppedMembers(levels, p, outputs, landed, l, x); }
    forall x | x in Inputs(p) ensures x.level == l <==> x in level { InputLevels(levels, p, outputs, landed, l, x); }
    FreshInputs(levels, p, ts);
    BackGives(level, ts, Inputs(p), l);
  }

  /** Live tables left behind share no id with the inputs. */
  lemma FreshInputs(levels: Tree, p: Picked, ts: seq<Table>)
    requires TablesOk(levels) && InPlace(levels, p) && (forall x :: x in ts ==> InTree(levels, x) && x !in Inputs(p))
    requires forall i, j :: 0 <= i < j < |Inputs(p)| ==> Inputs(p)[i].id != Inputs(p)[j].id
    ensures FreshIds(Inputs(p), ts)
  {
    forall x, y | x in Inputs(p) && y in ts ensures x.id != y.id { InputLive(levels, p, x); }
  }

  // ---- L0 -----------------------------------------------------------------------------------

  lemma {:induction false} WithoutNone(ts: seq<Table>, ids: set<nat>)
    requires forall t :: t in ts ==> t.id !in ids
    ensures Without(ts, ids) == ts
  {
    if ts == [] {
    } else {
      assert ts[0] in ts && forall t :: t in ts[1..] ==> t in ts;
      WithoutNone(ts[1..], ids);
    }
  }

  lemma {:induction false} WithoutAll(ts: seq<Table>, ids: set<nat>)
    requires forall t :: t in ts ==> t.id in ids
    ensures Without(ts, ids) == []
  {
    if ts == [] {
    } else {
      assert ts[0] in ts && forall t :: t in ts[1..] ==> t in ts;
      WithoutAll(ts[1..], ids);
    }
  }

  lemma {:induction false} WithoutConcat(a: seq<Table>, b: seq<Table>, ids: set<nat>)
    ensures Without(a + b, ids) == Without(a, ids) + Without(b, ids)
  {
    if a == [] {
      assert a + b == b;
    } else {
      assert (a + b)[1..] == a[1..] + b;
      WithoutConcat(a[1..], b, ids);
    }
  }

  lemma {:induction false} OfLevelConcat(a: seq<Table>, b: seq<Table>, l: nat)
    ensures OfLevel(a + b, l) == OfLevel(a, l) + OfLevel(b, l)
  {
    if a == [] {
      assert a + b == b;
    } else {
      assert (a + b)[1..] == a[1..] + b;
      OfLevelConcat(a[1..], b, l);
    }
  }

  lemma {:induction false} OfLevelWhole(ts: seq<Table>, l: nat)
    ensures (forall t :: t in ts ==> t.level == l) ==> OfLevel(ts, l) == ts
    ensures (forall t :: t in ts ==> t.level != l) ==> OfLevel(ts, l) == []
  {
    if ts == [] {
    } else {
      assert ts[0] in ts && forall t :: t in ts[1..] ==> t in ts;
      OfLevelWhole(ts[1..], l);
    }
  }

  /** L0 keeps whatever landed, then what the job left, then the inputs in list order. */
  lemma UndoneL0(levels: Tree, p: Picked, outputs: seq<Table>, landed: seq<Table>)
    requires Undoable(levels, p, outputs, landed)
    ensures LevelAt(Undone(levels, p, outputs, landed), 0) ==
            (landed + Without(levels[0], Ids(Inputs(p)))) + OfLevel(Inputs(p), 0)
  {
    var kept := Without(levels[0], Ids(Inputs(p)));
    PutAllBackAt(DropIds(Flushed(Done(levels, p, outputs), landed), Ids(outputs)), Inputs(p), 0);
    forall t | t in kept ensures t in levels[0] && t !in Inputs(p) && InTree(levels, t) {
      WithoutIn(levels[0], Ids(Inputs(p)), t);
      assert t in Inputs(p) ==> t.id in Ids(Inputs(p));
    }
    WithoutNone(landed + kept, Ids(outputs));
    FreshInputs(levels, p, kept);
    BackAtL0(landed + kept, Inputs(p));
  }

  /** The L0 tables a job left behind. */
  lemma KeepLeft(levels: Tree, p: Picked, keep: seq<Table>)
    requires TablesOk(levels) && InPlace(levels, p) && levels != [] && levels[0] == keep + OfLevel(Inputs(p), 0)
    requires forall t :: t in keep ==> t !in Inputs(p)
    ensures Without(levels[0], Ids(Inputs(p))) == keep
  {
    var oldest := OfLevel(Inputs(p), 0);
    forall t | t in keep ensures t.id !in Ids(Inputs(p)) {
      assert t in levels[0] && InTree(levels, t);
      forall y | y in Inputs(p) ensures y.id != t.id { InputLive(levels, p, y); }
    }
    forall t | t in oldest ensures t.id in Ids(Inputs(p)) { OfLevelIn(Inputs(p), 0, t); }
    WithoutNone(keep, Ids(Inputs(p)));
    WithoutAll(oldest, Ids(Inputs(p)));
    WithoutConcat(keep, oldest, Ids(Inputs(p)));
    assert keep + [] == keep;
  }

  lemma Regroup(a: seq<Table>, b: seq<Table>, c: seq<Table>)
    ensures (a + b) + c == a + (b + c)
  {
  }

  lemma FlushedDeeper(levels: Tree, landed: seq<Table>, l: nat)
    requires levels != [] && l > 0
    ensures LevelAt(Flushed(levels, landed), l) == LevelAt(levels, l)
  {
  }

  lemma UndoneFirst(levels: Tree, p: Picked, outputs: seq<Table>, landed: seq<Table>, keep: seq<Table>)
    requires Undoable(levels, p, outputs, landed) && levels[0] == keep + OfLevel(Inputs(p), 0)
    requires forall t :: t in keep ==> t !in Inputs(p)
    ensures LevelAt(Undone(levels, p, outputs, landed), 0) == landed + levels[0]
  {
    UndoneL0(levels, p, outputs, landed);
    KeepLeft(levels, p, keep);
    Regroup(landed, keep, OfLevel(Inputs(p), 0));
  }

  /** If the job's L0 inputs were L0's oldest, listed newest first, rollback gives back
      exactly the earlier tree and whatever was flushed since, up to an empty level. */
  lemma RollbackRestores(levels: Tree, p: Picked, outputs: seq<Table>, landed: seq<Table>, keep: seq<Table>, l: nat)
    requires Undoable(levels, p, outputs, landed) && levels[0] == keep + OfLevel(Inputs(p), 0)
    requires forall t :: t in keep ==> t !in Inputs(p)
    ensures |Undone(levels, p, outputs, landed)| == |Widened(levels, p.target + 1)|
    ensures LevelAt(Undone(levels, p, outputs, landed), l) == LevelAt(Flushed(levels, landed), l)
  {
    UndoneWidth(levels, p, outputs, landed);
    if l > 0 { FlushedDeeper(levels, landed, l); }
    if l == 0 {
      UndoneFirst(levels, p, outputs, landed, keep);
    } else if l < |Done(levels, p, outputs)| {
      UndoneLevel(levels, p, outputs, landed, l);
    }
  }

  lemma {:induction false} OfLevelIn(ts: seq<Table>, l: nat, t: Table)
    requires t in OfLevel(ts, l)
    ensures t in ts && t.level == l
  {
    if !(ts[0].level == l && ts[0] == t) { OfLevelIn(ts[1..], l, t); }
  }

  lemma UndoneWidth(levels: Tree, p: Picked, outputs: seq<Table>, landed: seq<Table>)
    requires Undoable(levels, p, outputs, landed)
    ensures |Undone(levels, p, outputs, landed)| == |Done(levels, p, outputs)|
  {
    PutAllBackAt(DropIds(Flushed(Done(levels, p, outputs), landed), Ids(outputs)), Inputs(p), 0);
  }

  /** Reversing a window swaps its oldest and newest tables. */
  lemma {:induction false} ReversedEnds(w: seq<Table>)
    requires w != []
    ensures |Reversed(w)| == |w| && Reversed(w)[0] == w[|w| - 1] && Reversed(w)[|w| - 1] == w[0]
  {
    if |w| > 1 { ReversedEnds(w[1..]); }
  }

  lemma SourceOnly(levels: Tree, p: Picked, outputs: seq<Table>, landed: seq<Table>)
    requires Undoable(levels, p, outputs, landed) && Shaped(levels, p) && p.level == 0
    ensures OfLevel(Inputs(p), 0) == p.source
  {
    forall x | x in p.source ensures x.level == 0 {
      SourceHeld(levels, p, x);
      InputLevels(levels, p, outputs, landed, 0, x);
    }
    forall x | x in p.gathered ensures x.level != 0 { InputLevels(levels, p, outputs, landed, 1, x); }
    OfLevelConcat(p.source, p.gathered, 0);
    OfLevelWhole(p.source, 0);
    OfLevelWhole(p.gathered, 0);
    assert p.source + [] == p.source;
  }

  lemma L0Differs(levels: Tree, i: nat, j: nat)
    requires TablesOk(levels) && TreeOrdered(levels) && levels != [] && i < j < |levels[0]|
    ensures levels[0][i] != levels[0][j]
  {
    var t := levels[0][i];
    assert t in levels[0] && InTree(levels, t);
    TouchesSpanMin(t);
    SaysTouches(t, SpanMin(t));
    var n :| n in Says(OnDisk(t), SpanMin(t));
    assert NewerSource(OnDisk(t), OnDisk(levels[0][j]));
  }

  lemma KeptApart(levels: Tree, p: Picked, from: nat, x: Table, y: Table)
    requires TablesOk(levels) && TreeOrdered(levels) && Shaped(levels, p) && p.level == 0 && from <= |levels[0]|
    requires p.source == Reversed(levels[0][from..]) && x in levels[0][..from] && y in Inputs(p)
    ensures x != y
  {
    hide TreeOrdered;
    var i :| 0 <= i < from && levels[0][i] == x;
    if y in p.source {
      ReversedIn(levels[0][from..], y);
      var j :| 0 <= j < |levels[0][from..]| && levels[0][from..][j] == y;
      L0Differs(levels, i, from + j);
    } else if x == y {
      OneLevel(levels, x, 0, 1);
    }
  }

  lemma KeepStays(levels: Tree, p: Picked, from: nat)
    requires TablesOk(levels) && TreeOrdered(levels) && InPlace(levels, p) && Shaped(levels, p) && p.level == 0
    requires from <= |levels[0]|
    requires p.source == Reversed(levels[0][from..])
    ensures Without(levels[0], Ids(Inputs(p))) == levels[0][..from]
  {
    hide InPlace, TreeOrdered;
    var keep, window := levels[0][..from], levels[0][from..];
    assert levels[0] == keep + window;
    forall t | t in keep ensures t.id !in Ids(Inputs(p)) {
      assert t in levels[0] && InTree(levels, t);
      forall y | y in Inputs(p) ensures y.id != t.id {
        KeptApart(levels, p, from, t, y);
        InputLive(levels, p, y);
      }
    }
    forall t | t in window ensures t.id in Ids(Inputs(p)) { ReversedIn(window, t); }
    WithoutConcat(keep, window, Ids(Inputs(p)));
    WithoutNone(keep, Ids(Inputs(p)));
    WithoutAll(window, Ids(Inputs(p)));
  }

  lemma PrefixCancels(a: seq<Table>, b: seq<Table>, c: seq<Table>)
    ensures a + b == a + c <==> b == c
  {
    if a + b == a + c {
      assert b == (a + b)[|a|..] && c == (a + c)[|a|..];
    }
  }

  lemma {:induction false} ReversedSame(p: Picked, window: seq<Table>)
    requires p.source == Reversed(window)
    requires forall i, j :: 0 <= i < j < |Inputs(p)| ==> Inputs(p)[i].id != Inputs(p)[j].id
    ensures p.source == window <==> |p.source| <= 1
  {
    if window != [] {
      ReversedEnds(window);
      if |window| > 1 {
        assert Inputs(p)[0] == p.source[0] && Inputs(p)[|window| - 1] == p.source[|window| - 1];
      }
    }
  }

  lemma UndoneWindow(levels: Tree, p: Picked, outputs: seq<Table>, landed: seq<Table>, from: nat)
    requires Undoable(levels, p, outputs, landed) && Shaped(levels, p) && p.level == 0 && from <= |levels[0]|
    requires p.source == Reversed(levels[0][from..])
    ensures LevelAt(Undone(levels, p, outputs, landed), 0) == (landed + levels[0][..from]) + p.source
  {
    UndoneL0(levels, p, outputs, landed);
    SourceOnly(levels, p, outputs, landed);
    KeepStays(levels, p, from);
  }

  lemma WindowFrom(levels: Tree, p: Picked) returns (from: nat)
    requires Shaped(levels, p) && p.level == 0
    ensures from <= |levels[0]| && p.source == Reversed(levels[0][from..])
  {
    var take: nat :| take > 0 && p.source == OldestWindow(levels[0], take);
    from := if take < |levels[0]| then |levels[0]| - take else 0;
  }

  lemma SplitL0(landed: seq<Table>, l0: seq<Table>, from: nat)
    requires from <= |l0|
    ensures landed + l0 == (landed + l0[..from]) + l0[from..]
  {
  }

  /** As `build_job` lists them, oldest first, an L0 job's inputs come back in the wrong
      order exactly when there are two or more of them. */
  lemma RollbackOrder(levels: Tree, p: Picked, outputs: seq<Table>, landed: seq<Table>)
    requires Undoable(levels, p, outputs, landed) && Shaped(levels, p) && p.level == 0
    ensures LevelAt(Undone(levels, p, outputs, landed), 0) == landed + levels[0] <==> |p.source| <= 1
  {
    var from := WindowFrom(levels, p);
    UndoneWindow(levels, p, outputs, landed, from);
    SplitL0(landed, levels[0], from);
    PrefixCancels(landed + levels[0][..from], p.source, levels[0][from..]);
    ReversedSame(p, levels[0][from..]);
  }
}
