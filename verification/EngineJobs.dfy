/** Jobs in flight: picking one, and what another job's install leaves of it. */
module EngineJobs {
  import opened Semantics
  import opened Rewrite
  import opened Tables
  import opened JobTheorem
  import opened PlanSpans
  import opened Levels
  import opened Sources
  import opened Install
  import opened Engine
  import opened EngineFinish

  // ---- another job's install --------------------------------------------------------------

  /** `p` installs while `q` is in flight. */
  ghost predicate Crossing(levels: Tree, p: Picked, outputs: seq<Table>, q: Picked)
  {
    Finishing(levels, p, outputs) && InPlace(levels, q) && Compatible(q, p) && Compatible(p, q)
    && forall y :: y in Inputs(q) ==> WellFormed(y)
  }

  /** What `p` wrote at or above `q`'s target is newer than `q`'s inputs. */
  lemma CrossNewer(levels: Tree, p: Picked, outputs: seq<Table>, q: Picked, o: Table, y: Table)
    requires Crossing(levels, p, outputs, q) && p.target <= q.target && o in outputs && y in Inputs(q)
    ensures NewerSource(OnDisk(o), OnDisk(y))
  {
    forall z | z in Inputs(p) ensures NewerSource(OnDisk(z), OnDisk(y)) {
      if z in LevelAt(levels, p.level) {
        assert z in levels[p.level] && p.level <= q.target;
      } else {
        assert z in levels[p.target];
      }
    }
    OutputNewer(p.job, Inputs(p), outputs, o, OnDisk(y));
  }

  /** What `p` wrote below `q`'s target meets no key of `q` when `q` was bottom. */
  lemma CrossBottom(levels: Tree, p: Picked, outputs: seq<Table>, q: Picked, o: Table, y: Table, k: Key)
    requires Crossing(levels, p, outputs, q) && p.target > q.target && q.job.bottom && o in outputs && y in Inputs(q)
    requires Touches(o, k)
    ensures !Touches(y, k)
  {
    hide JobResult, InTree, WellFormed;
    var w := OutputTouches(p.job, Inputs(p), outputs, o, k);
    InputLive(levels, p, w);
    if w in LevelAt(levels, q.target) {
      assert Beside([w], Inputs(q)) && w in [w];
      ApartTouch(w, y, k);
    }
  }

  lemma {:induction false} WithoutLast(ts: seq<Table>, ids: set<nat>)
    requires ts != [] && ts[|ts| - 1].id !in ids
    ensures var r := Without(ts, ids); r != [] && r[|r| - 1] == ts[|ts| - 1]
  {
    if |ts| > 1 { WithoutLast(ts[1..], ids); }
  }

  lemma CrossMembers(levels: Tree, p: Picked, outputs: seq<Table>, q: Picked, y: Table)
    requires Crossing(levels, p, outputs, q) && y in Inputs(q)
    ensures var after := Done(levels, p, outputs); y in LevelAt(after, q.level) || y in LevelAt(after, q.target)
    ensures y.id !in Ids(Inputs(p))
  {
    InputLive(levels, q, y);
    if y.id in Ids(Inputs(p)) {
      var x :| x in Inputs(p) && x.id == y.id;
      InputLive(levels, p, x);
    }
    var i := if y in LevelAt(levels, q.level) then q.level else q.target;
    DoneMembers(levels, p, outputs, i, y);
  }

  lemma CrossUpper(levels: Tree, p: Picked, outputs: seq<Table>, q: Picked, a: nat, x: Table, y: Table)
    requires Crossing(levels, p, outputs, q) && a < |Done(levels, p, outputs)| && a <= q.target
    requires x in Done(levels, p, outputs)[a] && x !in Inputs(q) && y in Inputs(q)
    ensures NewerSource(OnDisk(x), OnDisk(y))
  {
    DoneMembers(levels, p, outputs, a, x);
    if !(x in LevelAt(levels, a) && x !in Inputs(p)) { CrossNewer(levels, p, outputs, q, x, y); }
  }

  lemma CrossTarget(levels: Tree, p: Picked, outputs: seq<Table>, q: Picked, x: Table)
    requires Crossing(levels, p, outputs, q) && x in LevelAt(Done(levels, p, outputs), q.target) && x !in Inputs(q)
    ensures Beside([x], Inputs(q))
  {
    DoneMembers(levels, p, outputs, q.target, x);
    if !(x in LevelAt(levels, q.target) && x !in Inputs(p)) { OutputBeside(p.job, Inputs(p), outputs, Inputs(q), x); }
  }

  lemma CrossTail(levels: Tree, p: Picked, outputs: seq<Table>, q: Picked)
    requires Crossing(levels, p, outputs, q)
    ensures HoldsTail(Done(levels, p, outputs), q)
  {
    hide Ids, Without, Compatible, InstallTree, FlushPending;
    if q.level == 0 {
      CrossMembers(levels, p, outputs, q, levels[0][|levels[0]| - 1]);
      WithoutLast(levels[0], Ids(Inputs(p)));
    }
  }

  lemma CrossBare(levels: Tree, p: Picked, outputs: seq<Table>, q: Picked)
    requires Crossing(levels, p, outputs, q)
    ensures BareBelow(Done(levels, p, outputs), q)
  {
    var after := Done(levels, p, outputs);
    if q.job.bottom {
      forall b, z, y, k: Key | q.target < b < |after| && z in after[b] && y in Inputs(q)
        ensures !(Touches(z, k) && Touches(y, k))
      {
        DoneMembers(levels, p, outputs, b, z);
        if Touches(z, k) && !(z in LevelAt(levels, b) && z !in Inputs(p)) {
          CrossBottom(levels, p, outputs, q, z, y, k);
        }
      }
    }
  }

  /** A job in flight keeps its place when another one installs. */
  lemma CrossInPlace(levels: Tree, p: Picked, outputs: seq<Table>, q: Picked)
    requires Crossing(levels, p, outputs, q)
    ensures InPlace(Done(levels, p, outputs), q)
  {
    var after := Done(levels, p, outputs);
    forall y | y in Inputs(q) ensures y in LevelAt(after, q.level) || y in LevelAt(after, q.target) {
      CrossMembers(levels, p, outputs, q, y);
    }
    forall a, x, y | 0 <= a < |after| && a <= q.target && x in after[a] && x !in Inputs(q) && y in Inputs(q)
      ensures NewerSource(OnDisk(x), OnDisk(y))
    {
      CrossUpper(levels, p, outputs, q, a, x, y);
    }
    forall x | x in LevelAt(after, q.target) && x !in Inputs(q) ensures Beside([x], Inputs(q)) {
      CrossTarget(levels, p, outputs, q, x);
    }
    CrossTail(levels, p, outputs, q);
    CrossBare(levels, p, outputs, q);
  }

  // ---- picking ------------------------------------------------------------------------------

  lemma SpanEnds(a: Table, b: Table)
    requires Stamped(a) && SpanBelow(a, b)
    ensures SpanMax(a) <= SpanMin(b)
  {
  }

  /** Two tables of one sorted level. */
  lemma SameLevelApart(levels: Tree, i: nat, x: Table, y: Table)
    requires TablesOk(levels) && 1 <= i < |levels| && x in levels[i] && y in levels[i] && x != y
    ensures Apart(x, y)
  {
    var a :| 0 <= a < |levels[i]| && levels[i][a] == x;
    var b :| 0 <= b < |levels[i]| && levels[i][b] == y;
  }

  lemma SourceHeld(levels: Tree, p: Picked, y: Table)
    requires Shaped(levels, p) && y in p.source
    ensures p.level < |levels| && y in levels[p.level]
  {
    if p.level == 0 {
      var take: nat :| take > 0 && p.source == OldestWindow(levels[0], take);
      ReversedIn(levels[0][if take < |levels[0]| then |levels[0]| - take else 0..], y);
    }
  }

  lemma SuffixIn(s: seq<Table>, from: nat, i: nat)
    requires from <= |s| && i < |s|
    ensures i >= from ==> s[i] in s[from..]
  {
    if i >= from { assert s[from..][i - from] == s[i]; }
  }

  /** An L0 table left out of the window is newer than the window. */
  lemma WindowOldest(levels: Tree, p: Picked, x: Table, y: Table)
    requires TreeOrdered(levels) && Shaped(levels, p) && p.level == 0
    requires x in levels[0] && x !in p.source && y in p.source
    ensures NewerSource(OnDisk(x), OnDisk(y))
  {
    var take: nat :| take > 0 && p.source == OldestWindow(levels[0], take);
    var from := if take < |levels[0]| then |levels[0]| - take else 0;
    ReversedIn(levels[0][from..], x);
    ReversedIn(levels[0][from..], y);
    var i :| 0 <= i < |levels[0]| && levels[0][i] == x;
    var j :| 0 <= j < |levels[0][from..]| && levels[0][from..][j] == y;
    SuffixIn(levels[0], from, i);
    assert levels[0][from + j] == y;
  }

  /** A target table the job did not gather lies strictly outside the source's span. */
  lemma OutsideSource(levels: Tree, p: Picked, x: Table, y: Table)
    requires TablesOk(levels) && Shaped(levels, p) && p.target == p.level + 1
    requires x in LevelAt(levels, p.target) && x !in p.gathered && y in p.source
    ensures if SpanMax(x) < JobMin(p.source) then SpanBelow(x, y) else SpanMin(x) > JobMax(p.source) && SpanBelow(y, x)
  {
    assert !Overlaps(x, JobMin(p.source), JobMax(p.source));
    var i :| 0 <= i < |p.source| && p.source[i] == y;
  }

  lemma OutsideGathered(levels: Tree, p: Picked, x: Table, y: Table)
    requires TablesOk(levels) && Shaped(levels, p) && p.target == p.level + 1
    requires x in LevelAt(levels, p.target) && x !in p.gathered && y in p.gathered
    ensures if SpanMax(x) < JobMin(p.source) then SpanBelow(x, y) else SpanBelow(y, x)
  {
    assert !Overlaps(x, JobMin(p.source), JobMax(p.source));
    assert InTree(levels, x) && InTree(levels, y);
    SameLevelApart(levels, p.target, x, y);
    if SpanBelow(y, x) { SpanEnds(y, x); } else { SpanEnds(x, y); }
  }

  lemma PickBeside(levels: Tree, p: Picked)
    requires TablesOk(levels) && Shaped(levels, p)
    ensures TargetBeside(levels, p)
  {
    forall x | x in LevelAt(levels, p.target) && x !in Inputs(p) ensures Beside([x], Inputs(p)) {
      if p.target == p.level {
        SameLevelApart(levels, p.target, x, p.source[0]);
      } else if SpanMax(x) < JobMin(p.source) {
        forall y | y in Inputs(p) ensures SpanBelow(x, y) {
          if y in p.source { OutsideSource(levels, p, x, y); } else { OutsideGathered(levels, p, x, y); }
        }
        assert AllBelow([x], Inputs(p));
      } else {
        forall y | y in Inputs(p) ensures SpanBelow(y, x) {
          if y in p.source { OutsideSource(levels, p, x, y); } else { OutsideGathered(levels, p, x, y); }
        }
        assert AllBelow(Inputs(p), [x]);
      }
    }
  }

  lemma BesideNewer(levels: Tree, p: Picked, x: Table, y: Table)
    requires TablesOk(levels) && TargetBeside(levels, p)
    requires x in LevelAt(levels, p.target) && x !in Inputs(p) && y in Inputs(p) && WellFormed(y)
    ensures NewerSource(OnDisk(x), OnDisk(y))
  {
    assert InTree(levels, x) && x in [x];
    ApartNewer(x, y);
  }

  lemma PickUnder(levels: Tree, p: Picked, a: nat, x: Table, y: Table)
    requires TablesOk(levels) && TreeOrdered(levels) && Shaped(levels, p) && TargetBeside(levels, p)
    requires a < |levels| && a <= p.target && x in levels[a] && x !in Inputs(p) && y in Inputs(p)
    ensures NewerSource(OnDisk(x), OnDisk(y))
  {
    var b := if y in p.source then p.level else p.target;
    if y in p.source { SourceHeld(levels, p, y); }
    assert y in levels[b] && InTree(levels, y);
    if a == p.target {
      BesideNewer(levels, p, x, y);
    } else if a == b == 0 {
      WindowOldest(levels, p, x, y);
    } else if a == b {
      SameLevelApart(levels, a, x, y);
      assert InTree(levels, x);
      ApartNewer(x, y);
    }
  }

  lemma PickTail(levels: Tree, p: Picked)
    requires Shaped(levels, p)
    ensures HoldsTail(levels, p)
  {
    if p.level == 0 {
      var take: nat :| take > 0 && p.source == OldestWindow(levels[0], take);
      var window := levels[0][if take < |levels[0]| then |levels[0]| - take else 0..];
      assert window[|window| - 1] == levels[0][|levels[0]| - 1];
      ReversedIn(window, levels[0][|levels[0]| - 1]);
    }
  }

  /** A picked job takes its place. */
  lemma PickInPlace(levels: Tree, p: Picked)
    requires TablesOk(levels) && TreeOrdered(levels) && Shaped(levels, p)
    requires p.job.bottom == TargetIsBottom(levels, p.target)
    ensures InPlace(levels, p)
  {
    PickBeside(levels, p);
    PickTail(levels, p);
    forall y | y in Inputs(p) ensures y in LevelAt(levels, p.level) || y in LevelAt(levels, p.target) {
      if y in p.source { SourceHeld(levels, p, y); }
    }
    forall a, x, y | 0 <= a < |levels| && a <= p.target && x in levels[a] && x !in Inputs(p) && y in Inputs(p)
      ensures NewerSource(OnDisk(x), OnDisk(y))
    {
      PickUnder(levels, p, a, x, y);
    }
  }

  // ---- range locks -------------------------------------------------------------------------

  /** Jobs whose locks do not conflict share no table. */
  lemma LocksDisjoint(a: seq<Table>, b: seq<Table>, t: Table)
    requires t in a && !LocksConflict(a, b) && WellFormed(t)
    ensures t !in b
  {
  }

  lemma PairApart(levels: Tree, p: Picked, q: Picked, x: Table, y: Table)
    requires TablesOk(levels) && InPlace(levels, p) && InPlace(levels, q) && p.target == q.target
    requires x in Inputs(p) && y in Inputs(q) && x !in Inputs(q) && y !in Inputs(p)
    requires p.level > 0 || q.level > 0
    ensures Apart(x, y)
  {
    if x in LevelAt(levels, q.target) {
      assert Beside([x], Inputs(q)) && x in [x];
    } else if y in LevelAt(levels, p.target) {
      assert Beside([y], Inputs(p)) && y in [y];
    } else {
      SameLevelApart(levels, p.level, x, y);
    }
  }

  /** Range locks on point bounds are enough: two jobs with one target lie side by side. */
  lemma LocksBeside(levels: Tree, p: Picked, q: Picked)
    requires TablesOk(levels) && InPlace(levels, p) && InPlace(levels, q) && !LocksConflict(Inputs(p), Inputs(q))
    ensures Compatible(p, q) && Compatible(q, p)
  {
    forall t | t in Inputs(p) ensures t !in Inputs(q) {
      InputLive(levels, p, t);
      LocksDisjoint(Inputs(p), Inputs(q), t);
    }
    if p.target == q.target && Inputs(p) != [] && Inputs(q) != [] {
      forall x, y | x in Inputs(p) && y in Inputs(q)
        ensures if LockMax(Inputs(p)) < LockMin(Inputs(q)) then SpanBelow(x, y) else SpanBelow(y, x)
      {
        InputLive(levels, p, x);
        InputLive(levels, q, y);
        PairApart(levels, p, q, x, y);
        if SpanBelow(x, y) { BelowStartsLower(x, y); } else { BelowStartsLower(y, x); }
      }
      if LockMax(Inputs(p)) < LockMin(Inputs(q)) {
        assert AllBelow(Inputs(p), Inputs(q));
      } else {
        assert AllBelow(Inputs(q), Inputs(p));
      }
    }
  }
}
