/**
 Folding an operand chain gathered from several sources. Each source contributes its
 versions down to its own first base; sorting by sequence and stopping at the first
 base overall resolves the key as a walk over all sources would.
 */
module ChainFold {
  import opened Semantics
  import opened PointRead

  /** A version as it is gathered: a dead base is a bare delete, a live one has no TTL. */
  function Flat(e: Entry, now: int): Entry
  {
    match e
    case Operand(v) => Operand(v)
    case _ => if Dead(e, now) then Tombstone(false) else Put(Bytes(e), 0)
  }

  /** One source's run: from `n` down, through its first base. */
  function Contribution(h: History, k: Key, n: int, now: int): seq<Version>
    decreases n + 1
  {
    if n < 0 then []
    else if n !in h then Contribution(h, k, n - 1, now)
    else [Version(k, n, Flat(h[n], now))] + if h[n].Operand? then Contribution(h, k, n - 1, now) else []
  }

  /** What a source leaves out lies under one of its own bases. */
  lemma {:induction false} ContributionMisses(h: History, k: Key, s: int, now: int, n: nat) returns (b: nat)
    requires n in h && n <= s && n !in PointsOf(Contribution(h, k, s, now), k)
    ensures n < b <= s && b in h && !h[b].Operand?
    decreases s + 1
  {
    if s in h && !h[s].Operand? {
      b := s;
    } else {
      b := ContributionMisses(h, k, s - 1, now, n);
    }
  }

  lemma {:induction false} ContributionKeys(h: History, k: Key, s: int, now: int)
    ensures forall v :: v in Contribution(h, k, s, now) ==> v.key == k && v.seqno <= s
    decreases s + 1
  {
    if s >= 0 { ContributionKeys(h, k, s - 1, now); }
  }

  // ---- sorting ------------------------------------------------------------------------------

  /** Newest first; equal sequences keep the order they were gathered in. */
  function InsertBySeq(vs: seq<Version>, v: Version): seq<Version>
  {
    if vs == [] || vs[0].seqno <= v.seqno then [v] + vs else [vs[0]] + InsertBySeq(vs[1..], v)
  }

  function SortBySeq(vs: seq<Version>): seq<Version>
  {
    if vs == [] then [] else InsertBySeq(SortBySeq(vs[1..]), vs[0])
  }

  predicate Descending(vs: seq<Version>)
  {
    forall i, j :: 0 <= i < j < |vs| ==> vs[i].seqno >= vs[j].seqno
  }

  lemma {:induction false} InsertDescends(vs: seq<Version>, v: Version)
    requires Descending(vs)
    ensures Descending(InsertBySeq(vs, v))
    ensures forall x :: x in InsertBySeq(vs, v) ==> x == v || x in vs
  {
    if vs != [] && vs[0].seqno > v.seqno {
      InsertDescends(vs[1..], v);
      var rest := InsertBySeq(vs[1..], v);
      forall i | 0 <= i < |rest| ensures vs[0].seqno >= rest[i].seqno { assert rest[i] in rest; }
    }
  }

  lemma {:induction false} InsertPoints(vs: seq<Version>, v: Version, k: Key)
    requires Descending(vs)
    ensures PointsOf(InsertBySeq(vs, v), k) == PointsOf([v] + vs, k)
  {
    if vs != [] && vs[0].seqno > v.seqno {
      InsertPoints(vs[1..], v, k);
      PointsConcat([v], vs[1..], k);
      PointsConcat([v], vs, k);
    }
  }

  lemma {:induction false} SortedSame(vs: seq<Version>, k: Key)
    ensures Descending(SortBySeq(vs)) && PointsOf(SortBySeq(vs), k) == PointsOf(vs, k)
    ensures forall x :: x in SortBySeq(vs) ==> x in vs
  {
    if vs == [] {
    } else {
      SortedSame(vs[1..], k);
      InsertDescends(SortBySeq(vs[1..]), vs[0]);
      InsertPoints(SortBySeq(vs[1..]), vs[0], k);
      PointsConcat([vs[0]], SortBySeq(vs[1..]), k);
      PointsConcat([vs[0]], vs[1..], k);
      assert [vs[0]] + vs[1..] == vs;
    }
  }

  // ---- the fold -----------------------------------------------------------------------------

  /** The walk of the gathered history from just under `last`. */
  function Under(h: History, top: nat, last: Option<nat>): Chain
  {
    Walk(h, if last.None? then top else last.value - 1)
  }

  /** The next distinct version of a newest-first list is the next entry of its history. */
  lemma {:induction false} NextVersion(vs: seq<Version>, k: Key, i: nat, top: nat, last: Option<nat>)
    requires Descending(vs) && i < |vs| && (forall v :: v in vs ==> v.key == k && v.seqno <= top)
    requires if i == 0 then last == None else last == Some(vs[i - 1].seqno)
    requires last != Some(vs[i].seqno)
    ensures Under(PointsOf(vs, k), top, last) == Above(vs[i].entry, Under(PointsOf(vs, k), top, Some(vs[i].seqno)))
  {
    var h := PointsOf(vs, k);
    var n: int := vs[i].seqno;
    var hi: int := if last.None? then top else last.value - 1;
    assert vs[i] in vs;
    assert i > 0 ==> vs[i - 1].seqno > vs[i].seqno;
    forall m: nat | n < m <= hi ensures m !in h {
      if m in h { var j := PointsWitness(vs, k, m); }
    }
    PointsMember(vs, k, i);
    var j := PointsWitness(vs, k, vs[i].seqno);
    FirstCopy(vs, k, i);
    WalkSkip(h, n, hi);
  }

  lemma {:induction false} FirstCopy(vs: seq<Version>, k: Key, i: nat)
    requires i < |vs| && vs[i].key == k && forall j :: 0 <= j < i ==> vs[j].seqno != vs[i].seqno
    ensures vs[i].seqno in PointsOf(vs, k) && PointsOf(vs, k)[vs[i].seqno] == vs[i].entry
  {
    if i == 0 {
    } else {
      FirstCopy(vs[1..], k, i - 1);
    }
  }

  lemma {:induction false} LastVersion(vs: seq<Version>, k: Key, top: nat, last: Option<nat>)
    requires Descending(vs) && (forall v :: v in vs ==> v.key == k && v.seqno <= top)
    requires if vs == [] then last == None else last == Some(vs[|vs| - 1].seqno)
    ensures Under(PointsOf(vs, k), top, last) == Chain([], Missing)
  {
    var h := PointsOf(vs, k);
    var hi: int := if last.None? then top else last.value - 1;
    forall m: nat | m <= hi ensures m !in h {
      if m in h { var j := PointsWitness(vs, k, m); }
    }
    WalkSkip(h, -1, hi);
  }

  /** `fold_chain` over gathered versions. */
  method FoldChain(op: MergeOp, k: Key, gathered: seq<Version>, ghost top: nat, ghost now: int) returns (r: Outcome)
    requires forall v :: v in gathered ==> v.key == k && v.seqno <= top && (v.entry.Put? ==> v.entry.ttl == 0)
    ensures r == Resolve(Reader(op, k, now), Walk(PointsOf(gathered, k), top))
  {
    hide PointsOf, Reversed;
    var versions := SortBySeq(gathered);
    SortedSame(gathered, k);
    ghost var h := PointsOf(versions, k);
    var operands: seq<Value> := [];
    var existing: Option<Value> := None;
    var last: Option<nat> := None;
    var i, based := 0, false;
    while i < |versions| && !based
      invariant 0 <= i <= |versions|
      invariant !based ==> if i == 0 then last == None else last == Some(versions[i - 1].seqno)
      invariant !based ==> Walk(h, top) == Push(operands, Under(h, top, last)) && existing == None
      invariant based ==> Walk(h, top).operands == operands && Existing(Walk(h, top).base, now) == existing
    {
      var v := versions[i];
      assert v in versions;
      if last != Some(v.seqno) {
        NextVersion(versions, k, i, top, last);
        last := Some(v.seqno);
        if v.entry.Operand? {
          ghost var below := Under(h, top, last);
          assert (operands + [v.entry.value]) + below.operands == operands + ([v.entry.value] + below.operands);
          operands := operands + [v.entry.value];
        } else {
          assert operands + [] == operands;
          existing := if v.entry.Put? then Some(v.entry.value) else None;
          based := true;
        }
      }
      i := i + 1;
    }
    if !based {
      LastVersion(versions, k, top, last);
      assert operands + [] == operands;
    }
    if operands == [] {
      return if existing.Some? then Found(existing.value) else NotFound;
    }
    var folded := op(k, existing, Reversed(operands));
    return if folded.Some? then Found(folded.value) else Corrupt;
  }

  // ---- what was gathered is enough -----------------------------------------------------------

  /** A gathered history that misses only entries under a base resolves like the whole. */
  lemma {:induction false} GatheredWalk(g: History, h: History, s: int, now: int)
    requires forall n :: n in g && n <= s ==> n in h && g[n] == Flat(h[n], now)
    requires forall n: nat :: n in h && n <= s && n !in g ==> exists b: nat :: n < b <= s && b in h && !h[b].Operand?
    ensures Walk(g, s).operands == Walk(h, s).operands
    ensures Existing(Walk(g, s).base, now) == Existing(Walk(h, s).base, now)
    decreases s + 1
  {
    if s >= 0 && !(s in h && !h[s].Operand?) {
      GatheredWalk(g, h, s - 1, now);
    }
  }
}
