/** Publishing a job: `install_compaction_outputs`, and its undo. */
module Levels {
  import opened Tables

  type Tree = seq<seq<Table>>

  /** A level that merely exists below the target, empty or not, makes it not the bottom. */
  predicate TargetIsBottom(levels: Tree, target: nat)
  {
    target + 1 >= |levels|
  }

  function Ids(ts: seq<Table>): set<nat>
  {
    set t | t in ts :: t.id
  }

  /** The tables whose id is not in `ids`, in order. */
  function Without(ts: seq<Table>, ids: set<nat>): seq<Table>
  {
    if ts == [] then []
    else if ts[0].id in ids then Without(ts[1..], ids)
    else [ts[0]] + Without(ts[1..], ids)
  }

  lemma {:induction false} WithoutIn(ts: seq<Table>, ids: set<nat>, t: Table)
    ensures t in Without(ts, ids) <==> t in ts && t.id !in ids
  {
    if ts == [] {
    } else {
      WithoutIn(ts[1..], ids, t);
    }
  }

  /** Filtering keeps the order of what stays. */
  lemma {:induction false} WithoutPicks(ts: seq<Table>, ids: set<nat>, i: nat, j: nat) returns (a: nat, b: nat)
    requires i <= j < |Without(ts, ids)|
    ensures a < |ts| && b < |ts| && (i < j ==> a < b)
    ensures ts[a] == Without(ts, ids)[i] && ts[b] == Without(ts, ids)[j]
  {
    if ts[0].id in ids {
      var c, d := WithoutPicks(ts[1..], ids, i, j);
      a, b := c + 1, d + 1;
    } else if j == 0 {
      a, b := 0, 0;
    } else {
      var c, d := WithoutPicks(ts[1..], ids, if i == 0 then j - 1 else i - 1, j - 1);
      a, b := if i == 0 then 0 else c + 1, d + 1;
    }
  }

  /** Stable insertion by first key. */
  function InsertTable(ts: seq<Table>, t: Table): (r: seq<Table>)
    ensures forall x :: x in r <==> x in ts || x == t
  {
    if ts == [] then [t]
    else if ts[0].minKey < t.minKey then [ts[0]] + InsertTable(ts[1..], t)
    else [t] + ts
  }

  function SortByMinKey(ts: seq<Table>): (r: seq<Table>)
    ensures forall x :: x in r <==> x in ts
  {
    if ts == [] then [] else InsertTable(SortByMinKey(ts[1..]), ts[0])
  }

  lemma {:induction false} SortPermutes(ts: seq<Table>)
    ensures multiset(SortByMinKey(ts)) == multiset(ts)
  {
    if ts == [] {
    } else {
      SortPermutes(ts[1..]);
      InsertPermutes(SortByMinKey(ts[1..]), ts[0]);
      assert ts == [ts[0]] + ts[1..];
    }
  }

  lemma {:induction false} InsertPermutes(ts: seq<Table>, t: Table)
    ensures multiset(InsertTable(ts, t)) == multiset(ts) + multiset{t}
  {
    if ts != [] && ts[0].minKey < t.minKey {
      InsertPermutes(ts[1..], t);
      assert ts == [ts[0]] + ts[1..];
    }
  }

  // ---- keeping a level searchable ----------------------------------------------------

  /** The two tables meet no common key, and one lies wholly below the other. */
  ghost predicate Apart(a: Table, b: Table)
  {
    SpanBelow(a, b) || SpanBelow(b, a)
  }

  ghost predicate Stamped(t: Table)
  {
    WellFormed(t) && Tight(t)
  }

  lemma BelowStartsLower(a: Table, b: Table)
    requires Stamped(a) && SpanBelow(a, b)
    ensures a.minKey < b.minKey
  {
    if a.points == [] {
      assert a.frags[0].start < a.frags[|a.frags| - 1].end;
    }
  }

  lemma {:induction false} InsertLevel(level: seq<Table>, t: Table)
    requires LevelOk(level) && Stamped(t) && (forall x :: x in level ==> Apart(x, t))
    ensures LevelOk(InsertTable(level, t))
  {
    if level == [] {
    } else if level[0].minKey < t.minKey {
      InsertLevel(level[1..], t);
      var rest := InsertTable(level[1..], t);
      forall i | 0 <= i < |rest| ensures SpanBelow(level[0], rest[i]) {
        assert rest[i] in rest;
        if SpanBelow(t, level[0]) { BelowStartsLower(t, level[0]); }
        assert level[0] in level;
      }
      PrependLevel(level[0], rest);
    } else {
      forall i | 0 <= i < |level| ensures SpanBelow(t, level[i]) {
        if i > 0 { BelowStartsLower(level[0], level[i]); }
        if SpanBelow(level[i], t) { BelowStartsLower(level[i], t); }
        assert level[i] in level;
      }
      PrependLevel(t, level);
    }
  }

  lemma PrependLevel(t: Table, level: seq<Table>)
    requires LevelOk(level) && Stamped(t) && forall i :: 0 <= i < |level| ==> SpanBelow(t, level[i])
    ensures LevelOk([t] + level)
  {
  }

  /** Sorting by first key makes a level of any pairwise separate tables. */
  lemma {:induction false} SortLevel(ts: seq<Table>)
    requires forall i :: 0 <= i < |ts| ==> Stamped(ts[i])
    requires forall i, j :: 0 <= i < j < |ts| ==> Apart(ts[i], ts[j])
    ensures LevelOk(SortByMinKey(ts))
  {
    if ts == [] {
    } else {
      SortLevel(ts[1..]);
      InsertLevel(SortByMinKey(ts[1..]), ts[0]);
    }
  }

  function LevelAt(levels: Tree, i: nat): seq<Table>
  {
    if i < |levels| then levels[i] else []
  }

  /** Level `i` after a job: the inputs gone, and at the target the outputs merged in by key. */
  function InstalledLevel(levels: Tree, i: nat, target: nat, ids: set<nat>, outputs: seq<Table>): seq<Table>
  {
    var kept := Without(LevelAt(levels, i), ids);
    if i == target then SortByMinKey(kept + outputs) else kept
  }

  ghost predicate Installed(before: Tree, after: Tree, target: nat, inputs: seq<Table>, outputs: seq<Table>)
  {
    && |after| == (if |before| < target + 1 then target + 1 else |before|)
    && forall i :: 0 <= i < |after| ==> after[i] == InstalledLevel(before, i, target, Ids(inputs), outputs)
  }

  /** Rebuild every level from the live set, whatever landed since the job was picked. */
  method Install(levels: Tree, target: nat, inputs: seq<Table>, outputs: seq<Table>) returns (updated: Tree)
    ensures Installed(levels, updated, target, inputs, outputs)
  {
    var needed := if |levels| < target + 1 then target + 1 else |levels|;
    updated := [];
    var i := 0;
    while i < needed
      invariant 0 <= i <= needed && |updated| == i
      invariant forall j :: 0 <= j < i ==> updated[j] == InstalledLevel(levels, j, target, Ids(inputs), outputs)
    {
      var tables := Without(if i < |levels| then levels[i] else [], Ids(inputs));
      if i == target {
        tables := SortByMinKey(tables + outputs);
      }
      updated := updated + [tables];
      i := i + 1;
    }
  }

  /** Install removes exactly the inputs and adds exactly the outputs. */
  lemma InstallMembers(before: Tree, after: Tree, target: nat, inputs: seq<Table>, outputs: seq<Table>, i: nat,
                       t: Table)
    requires Installed(before, after, target, inputs, outputs) && i < |after|
    ensures t in after[i] <==> (t in LevelAt(before, i) && t.id !in Ids(inputs)) || (i == target && t in outputs)
  {
    WithoutIn(LevelAt(before, i), Ids(inputs), t);
  }

  // ---- undo ------------------------------------------------------------------------------

  function Widened(levels: Tree, n: nat): (r: Tree)
    ensures |r| == if |levels| < n then n else |levels|
    ensures forall i :: 0 <= i < |r| ==> r[i] == LevelAt(levels, i)
  {
    if |levels| < n then levels + seq(n - |levels|, _ => []) else levels
  }

  predicate Holds(ts: seq<Table>, id: nat)
  {
    exists i :: 0 <= i < |ts| && ts[i].id == id
  }

  /** Put one input back at its own level: appended at L0, in key order deeper. */
  function PutBack(levels: Tree, t: Table): (r: Tree)
    ensures |r| == if |levels| < t.level + 1 then t.level + 1 else |levels|
  {
    var wide := Widened(levels, t.level + 1);
    if Holds(wide[t.level], t.id) then wide
    else if t.level == 0 then wide[0 := wide[0] + [t]]
    else wide[t.level := SortByMinKey(wide[t.level] + [t])]
  }

  function PutAllBack(levels: Tree, inputs: seq<Table>): Tree
    decreases |inputs|
  {
    if inputs == [] then levels else PutAllBack(PutBack(levels, inputs[0]), inputs[1..])
  }

  function DropIds(levels: Tree, ids: set<nat>): (r: Tree)
    ensures |r| == |levels| && forall i :: 0 <= i < |r| ==> r[i] == Without(levels[i], ids)
  {
    if levels == [] then [] else [Without(levels[0], ids)] + DropIds(levels[1..], ids)
  }

  /** `rollback_compaction_outputs`. */
  method Rollback(levels: Tree, inputs: seq<Table>, installed: seq<Table>) returns (updated: Tree)
    ensures updated == PutAllBack(DropIds(levels, Ids(installed)), inputs)
  {
    updated := DropIds(levels, Ids(installed));
    var i := 0;
    while i < |inputs|
      invariant 0 <= i <= |inputs|
      invariant PutAllBack(updated, inputs[i..]) == PutAllBack(DropIds(levels, Ids(installed)), inputs)
    {
      assert inputs[i..][1..] == inputs[i + 1..];
      updated := PutBack(updated, inputs[i]);
      i := i + 1;
    }
    assert inputs[|inputs|..] == [];
  }
}
