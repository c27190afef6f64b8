/**
 Excise: deciding, from range-delete intervals alone, which tables hold nothing that
 is not already deleted.
 */
module ExcisePlan {
  import opened Semantics
  import opened Fragments
  import opened Tables
  import opened Levels
  import opened Engine

  /** A durable fragment, flattened to the one sequence that matters. */
  datatype Cover = Cover(start: Key, end: Key, seqno: nat, owner: nat)

  predicate ByStart(cs: seq<Cover>)
  {
    forall i, j :: 0 <= i < j < |cs| ==> cs[i].start <= cs[j].start
  }

  /** A cover over `k` that is newer than everything in the table. */
  predicate Shadows(c: Cover, k: Key, maxSeq: nat)
  {
    c.start <= k < c.end && c.seqno > maxSeq
  }

  /** A cover that shadows some key of the interval. */
  predicate Helps(c: Cover, minKey: Key, maxKey: Key, maxSeq: nat)
  {
    c.seqno > maxSeq && c.start <= maxKey && minKey < c.end
  }

  ghost predicate Shadowed(cs: seq<Cover>, k: Key, maxSeq: nat)
  {
    exists c :: c in cs && Shadows(c, k, maxSeq)
  }

  ghost predicate ShadowedBy(cs: seq<Cover>, owners: seq<nat>, k: Key, maxSeq: nat)
  {
    exists c :: c in cs && c.owner in owners && Shadows(c, k, maxSeq)
  }

  predicate Rising(ids: seq<nat>)
  {
    forall i, j :: 0 <= i < j < |ids| ==> ids[i] < ids[j]
  }

  /** Sorted, duplicates dropped. */
  function InsertId(ids: seq<nat>, id: nat): (r: seq<nat>)
    requires Rising(ids)
    ensures Rising(r) && forall x :: x in r <==> x in ids || x == id
  {
    if ids == [] then [id]
    else if id < ids[0] then [id] + ids
    else if id == ids[0] then ids
    else
      var rest := InsertId(ids[1..], id);
      assert forall i :: 0 <= i < |rest| ==> rest[i] in rest;
      [ids[0]] + rest
  }

  function SortIds(ids: seq<nat>): (r: seq<nat>)
    ensures Rising(r) && forall x :: x in r <==> x in ids
  {
    if ids == [] then [] else InsertId(SortIds(ids[1..]), ids[0])
  }

  /** One forward pass: the owners of a gap-free union over `[minKey, maxKey]`, exactly
      when every key of it is shadowed. */
  method CoveringOwners(covers: seq<Cover>, minKey: Key, maxKey: Key, maxSeq: nat) returns (owners: Option<seq<nat>>)
    requires ByStart(covers) && minKey <= maxKey
    ensures owners.Some? <==> forall k: Key :: minKey <= k <= maxKey ==> Shadowed(covers, k, maxSeq)
    ensures owners.Some? ==> forall id :: id in owners.value ==>
              exists c :: c in covers && c.owner == id && Helps(c, minKey, maxKey, maxSeq)
    ensures owners.Some? ==> Rising(owners.value) && forall k: Key :: minKey <= k <= maxKey ==>
              ShadowedBy(covers, owners.value, k, maxSeq)
  {
    var found: seq<nat> := [];
    var reach: Option<Key> := None;
    var i := 0;
    while i < |covers|
      invariant 0 <= i <= |covers|
      invariant reach.Some? ==> minKey < reach.value <= maxKey
      invariant forall id :: id in found ==>
                  exists c :: c in covers && c.owner == id && Helps(c, minKey, maxKey, maxSeq)
      invariant forall k: Key :: reach.Some? && minKey <= k < reach.value ==> ShadowedBy(covers, found, k, maxSeq)
      invariant forall j :: 0 <= j < i && covers[j].seqno > maxSeq ==>
                  covers[j].end <= if reach.Some? then reach.value else minKey
    {
      var c := covers[i];
      assert c in covers;
      if c.seqno <= maxSeq || c.end <= minKey {
        i := i + 1;
        continue;
      }
      var need := if reach.Some? then reach.value else minKey;
      if c.start > need {
        assert !Shadowed(covers, need, maxSeq) by {
          forall j | 0 <= j < |covers| ensures !Shadows(covers[j], need, maxSeq) {}
        }
        return None;
      }
      if reach.None? || c.end > reach.value {
        ghost var before := found;
        reach, found := Some(c.end), found + [c.owner];
        forall k: Key | minKey <= k < c.end ensures ShadowedBy(covers, found, k, maxSeq) {
          if k >= need {
            assert Shadows(c, k, maxSeq);
          } else {
            assert ShadowedBy(covers, before, k, maxSeq);
            var d :| d in covers && d.owner in before && Shadows(d, k, maxSeq);
            assert d.owner in found;
          }
        }
      }
      if maxKey < reach.value {
        owners := Some(SortIds(found));
        forall k: Key | minKey <= k <= maxKey
          ensures Shadowed(covers, k, maxSeq) && ShadowedBy(covers, owners.value, k, maxSeq)
        {
          assert ShadowedBy(covers, found, k, maxSeq);
          var d :| d in covers && d.owner in found && Shadows(d, k, maxSeq);
          assert d.owner in owners.value;
        }
        return;
      }
      i := i + 1;
    }
    ghost var need := if reach.Some? then reach.value else minKey;
    assert !Shadowed(covers, need, maxSeq) by {
      forall j | 0 <= j < |covers| ensures !Shadows(covers[j], need, maxSeq) {}
    }
    return None;
  }

  // ---- covers ---------------------------------------------------------------------------------

  /** Greatest sequence of a stack at or below `oldest`. */
  function SettledSeq(seqs: seq<nat>, oldest: nat): (r: Option<nat>)
    ensures NewestAtMost(r, Elements(seqs), oldest)
  {
    if seqs == [] then None
    else
      var rest := SettledSeq(seqs[1..], oldest);
      assert forall s :: s in Elements(seqs) <==> s == seqs[0] || s in Elements(seqs[1..]);
      if seqs[0] <= oldest && (rest.None? || seqs[0] > rest.value) then Some(seqs[0]) else rest
  }

  function FragmentCovers(frags: seq<Fragment>, owner: nat, oldest: nat): seq<Cover>
  {
    if frags == [] then []
    else
      var seqno := SettledSeq(frags[0].seqs, oldest);
      (if seqno.Some? then [Cover(frags[0].start, frags[0].end, seqno.value, owner)] else [])
      + FragmentCovers(frags[1..], owner, oldest)
  }

  function TableCovers(ts: seq<Table>, oldest: nat): seq<Cover>
  {
    if ts == [] then [] else FragmentCovers(ts[0].frags, ts[0].id, oldest) + TableCovers(ts[1..], oldest)
  }

  function InsertCover(cs: seq<Cover>, c: Cover): seq<Cover>
  {
    if cs == [] || c.start <= cs[0].start then [c] + cs else [cs[0]] + InsertCover(cs[1..], c)
  }

  function SortCovers(cs: seq<Cover>): seq<Cover>
  {
    if cs == [] then [] else InsertCover(SortCovers(cs[1..]), cs[0])
  }

  lemma {:induction false} InsertCoverSorted(cs: seq<Cover>, c: Cover)
    requires ByStart(cs)
    ensures ByStart(InsertCover(cs, c)) && forall x :: x in InsertCover(cs, c) <==> x == c || x in cs
  {
    if cs != [] && c.start > cs[0].start {
      InsertCoverSorted(cs[1..], c);
      var rest := InsertCover(cs[1..], c);
      forall i | 0 <= i < |rest| ensures cs[0].start <= rest[i].start { assert rest[i] in rest; }
    }
  }

  lemma {:induction false} SortCoversSorted(cs: seq<Cover>)
    ensures ByStart(SortCovers(cs)) && forall x :: x in SortCovers(cs) <==> x in cs
  {
    if cs == [] {
    } else {
      SortCoversSorted(cs[1..]);
      InsertCoverSorted(SortCovers(cs[1..]), cs[0]);
    }
  }

  lemma {:induction false} FragmentCoverFrom(frags: seq<Fragment>, owner: nat, oldest: nat, c: Cover) returns (i: nat)
    requires c in FragmentCovers(frags, owner, oldest)
    ensures i < |frags| && c.owner == owner && SettledSeq(frags[i].seqs, oldest) == Some(c.seqno)
    ensures c.start == frags[i].start && c.end == frags[i].end
  {
    if c !in FragmentCovers(frags[1..], owner, oldest) {
      i := 0;
    } else {
      var j := FragmentCoverFrom(frags[1..], owner, oldest, c);
      i := j + 1;
    }
  }

  lemma {:induction false} FragmentCoverHas(frags: seq<Fragment>, owner: nat, oldest: nat, i: nat)
    requires i < |frags| && SettledSeq(frags[i].seqs, oldest).Some?
    ensures Cover(frags[i].start, frags[i].end, SettledSeq(frags[i].seqs, oldest).value, owner)
            in FragmentCovers(frags, owner, oldest)
  {
    if i == 0 {
    } else {
      FragmentCoverHas(frags[1..], owner, oldest, i - 1);
    }
  }

  lemma {:induction false} TableCoverFrom(ts: seq<Table>, oldest: nat, c: Cover) returns (t: Table)
    requires c in TableCovers(ts, oldest)
    ensures t in ts && c in FragmentCovers(t.frags, t.id, oldest)
  {
    if c in FragmentCovers(ts[0].frags, ts[0].id, oldest) {
      t := ts[0];
    } else {
      t := TableCoverFrom(ts[1..], oldest, c);
    }
  }

  lemma {:induction false} TableCoverHas(ts: seq<Table>, oldest: nat, t: Table, c: Cover)
    requires t in ts && c in FragmentCovers(t.frags, t.id, oldest)
    ensures c in TableCovers(ts, oldest)
  {
    if t != ts[0] { TableCoverHas(ts[1..], oldest, t, c); }
  }

  /** A cover is a settled range delete of its owner, at every key it spans. */
  lemma CoverMeans(ts: seq<Table>, oldest: nat, c: Cover, k: Key) returns (u: Table)
    requires (forall t :: t in ts ==> WellFormed(t)) && c in TableCovers(ts, oldest) && c.start <= k < c.end
    ensures u in ts && HasRanges(u) && u.id == c.owner && c.seqno in CoversOf(u.frags, k) && c.seqno <= oldest
  {
    u := TableCoverFrom(ts, oldest, c);
    var i := FragmentCoverFrom(u.frags, u.id, oldest, c);
    CoversAt(u.frags, i, k);
  }

  /** Every settled range delete over `k` is matched by a cover at least as new. */
  lemma CoverExists(ts: seq<Table>, oldest: nat, u: Table, k: Key, n: nat) returns (c: Cover)
    requires u in ts && n in CoversOf(u.frags, k) && n <= oldest
    ensures c in TableCovers(ts, oldest) && c.start <= k < c.end && c.seqno >= n
  {
    var i := CoverWitness(u.frags, k, n);
    assert n in Elements(u.frags[i].seqs);
    FragmentCoverHas(u.frags, u.id, oldest, i);
    c := Cover(u.frags[i].start, u.frags[i].end, SettledSeq(u.frags[i].seqs, oldest).value, u.id);
    TableCoverHas(ts, oldest, u, c);
  }

  /** `covers`, sorted: a key is shadowed exactly when some table's settled delete covers it. */
  lemma {:induction false} ShadowedIff(levels: Tree, oldest: nat, covers: seq<Cover>, t: Table, k: Key)
    requires TablesOk(levels) && forall x :: x in covers <==> x in TableCovers(AllTables(levels), oldest)
    ensures Shadowed(covers, k, t.maxSeq) <==> Covered(levels, oldest, t, k)
  {
    if Shadowed(covers, k, t.maxSeq) {
      var c :| c in covers && Shadows(c, k, t.maxSeq);
      var u := CoverMeans(AllTables(levels), oldest, c, k);
    }
    if Covered(levels, oldest, t, k) {
      var u, n: nat :| InTree(levels, u) && n in CoversOf(u.frags, k) && t.maxSeq < n <= oldest;
      var c := CoverExists(AllTables(levels), oldest, u, k, n);
      assert Shadows(c, k, t.maxSeq);
    }
  }

  // ---- the plan -------------------------------------------------------------------------------

  datatype Doomed = Doomed(table: Table, owners: seq<nat>)

  /** Which tables another database publishes, and which live on a named tier. */
  datatype Claims = Claims(foreign: Table -> bool, tiered: Table -> bool)

  /** Never unlinked: a foreign or tiered table, or one whose span meets a foreign one. */
  predicate Vetoed(levels: Tree, claims: Claims, t: Table)
  {
    claims.foreign(t) || claims.tiered(t)
    || exists u :: u in AllTables(levels) && claims.foreign(u) && SpanMin(t) <= SpanMax(u) && SpanMin(u) <= SpanMax(t)
  }

  /** Excise may drop exactly these tables. */
  ghost predicate Droppable(levels: Tree, oldest: nat, claims: Claims, t: Table)
  {
    && InTree(levels, t) && !HasRanges(t) && !Vetoed(levels, claims, t)
    && forall k: Key :: t.minKey <= k <= t.maxKey ==> Covered(levels, oldest, t, k)
  }

  /** No key that a droppable table speaks of is one another database's table speaks of. */
  lemma ClaimsSpared(levels: Tree, oldest: nat, claims: Claims, t: Table, u: Table, k: Key)
    requires TablesOk(levels) && Droppable(levels, oldest, claims, t) && InTree(levels, u) && claims.foreign(u)
    ensures t != u && !claims.tiered(t) && !(Touches(t, k) && Touches(u, k))
  {
    if Touches(t, k) && Touches(u, k) {
      SpanBounds(t, k);
      SpanBounds(u, k);
    }
  }

  function DoomedIds(ds: seq<Doomed>): set<nat>
  {
    set d | d in ds :: d.table.id
  }

  /** Owners of the union justifying a drop that would themselves be dropped. */
  function Offenders(ds: seq<Doomed>): set<nat>
  {
    set d, id | d in ds && id in d.owners && id in DoomedIds(ds) :: id
  }

  function Spared(ds: seq<Doomed>, offenders: set<nat>): (r: seq<Doomed>)
    ensures |r| <= |ds|
  {
    if ds == [] then []
    else (if ds[0].table.id in offenders then [] else [ds[0]]) + Spared(ds[1..], offenders)
  }

  lemma {:induction false} SparedIn(ds: seq<Doomed>, offenders: set<nat>, d: Doomed)
    ensures d in Spared(ds, offenders) <==> d in ds && d.table.id !in offenders
    ensures d in ds && d.table.id in offenders ==> |Spared(ds, offenders)| < |ds|
  {
    if ds == [] {
    } else {
      SparedIn(ds[1..], offenders, d);
    }
  }

  lemma FewerOffend(a: seq<Doomed>, b: seq<Doomed>)
    requires forall d :: d in b ==> d in a
    ensures Offenders(b) <= Offenders(a)
  {
    assert DoomedIds(b) <= DoomedIds(a);
  }

  /** The contiguous-set rule, to its fixpoint. */
  method SpareOwners(doomed: seq<Doomed>) returns (ds: seq<Doomed>)
    ensures Offenders(ds) == {} && (forall d :: d in ds ==> d in doomed)
    ensures Offenders(doomed) == {} ==> ds == doomed
    ensures forall d :: d in doomed && d.table.id !in Offenders(doomed) ==> d in ds
  {
    ds := doomed;
    while Offenders(ds) != {}
      invariant forall d :: d in ds ==> d in doomed
      invariant Offenders(doomed) == {} ==> ds == doomed
      invariant forall d :: d in doomed && d.table.id !in Offenders(doomed) ==> d in ds
      decreases |ds|
    {
      var offenders := Offenders(ds);
      ghost var id :| id in offenders;
      ghost var d :| d in ds && d.table.id == id;
      SparedIn(ds, offenders, d);
      forall e
        ensures e in Spared(ds, offenders) <==> e in ds && e.table.id !in offenders
      {
        SparedIn(ds, offenders, e);
      }
      FewerOffend(doomed, ds);
      ds := Spared(ds, offenders);
    }
  }

  ghost predicate Names(ds: seq<Doomed>, t: Table)
  {
    exists d :: d in ds && d.table == t
  }

  /** Tables whose keys are all shadowed, with the owners that shadow them. */
  method Candidates(levels: Tree, oldest: nat, claims: Claims, covers: seq<Cover>) returns (ds: seq<Doomed>)
    requires TablesOk(levels) && ByStart(covers)
    requires forall x :: x in covers <==> x in TableCovers(AllTables(levels), oldest)
    ensures forall t :: Names(ds, t) <==> Droppable(levels, oldest, claims, t)
    ensures forall d, id :: d in ds && id in d.owners ==> exists c :: c in covers && c.owner == id
  {
    var handles := AllTables(levels);
    ds := [];
    var i := 0;
    while i < |handles|
      invariant 0 <= i <= |handles|
      invariant forall t :: Names(ds, t) <==> t in handles[..i] && Droppable(levels, oldest, claims, t)
      invariant forall d, id :: d in ds && id in d.owners ==> exists c :: c in covers && c.owner == id
    {
      var t := handles[i];
      assert t in handles && handles[..i + 1] == handles[..i] + [t];
      ghost var before := ds;
      if !HasRanges(t) && !Vetoed(levels, claims, t) {
        var owners := CoveringOwners(covers, t.minKey, t.maxKey, t.maxSeq);
        forall k: Key
          ensures Shadowed(covers, k, t.maxSeq) <==> Covered(levels, oldest, t, k)
        {
          ShadowedIff(levels, oldest, covers, t, k);
        }
        if owners.Some? { ds := ds + [Doomed(t, owners.value)]; }
      }
      forall u ensures Names(ds, u) <==> Names(before, u) || (u == t && Droppable(levels, oldest, claims, t)) {
        if Names(before, u) { var d :| d in before && d.table == u; assert d in ds; }
        if u == t && Droppable(levels, oldest, claims, t) { assert ds[|ds| - 1].table == t; }
      }
      i := i + 1;
    }
    assert handles[..|handles|] == handles;
  }

  /** An owner carries range deletes, and a candidate does not, so no candidate is an owner. */
  lemma {:induction false} NoOffenders(levels: Tree, oldest: nat, claims: Claims, covers: seq<Cover>, ds: seq<Doomed>)
    requires TablesOk(levels) && (forall x :: x in covers <==> x in TableCovers(AllTables(levels), oldest))
    requires forall t :: Names(ds, t) <==> Droppable(levels, oldest, claims, t)
    requires forall d, id :: d in ds && id in d.owners ==> exists c :: c in covers && c.owner == id
    ensures Offenders(ds) == {}
  {
    forall d, id | d in ds && id in d.owners ensures id !in DoomedIds(ds) {
      var c :| c in covers && c.owner == id;
      var u := TableCoverFrom(AllTables(levels), oldest, c);
      var i := FragmentCoverFrom(u.frags, u.id, oldest, c);
      forall e | e in ds ensures e.table.id != id { assert Names(ds, e.table); }
    }
  }

  /** `plan`: exactly the live point-only tables whose every key is covered, but for the vetoed ones. */
  method Plan(levels: Tree, oldest: nat, claims: Claims) returns (ds: seq<Doomed>)
    requires TablesOk(levels)
    ensures forall t :: Names(ds, t) <==> Droppable(levels, oldest, claims, t)
    ensures Offenders(ds) == {}
  {
    var covers := SortCovers(TableCovers(AllTables(levels), oldest));
    SortCoversSorted(TableCovers(AllTables(levels), oldest));
    ds := Candidates(levels, oldest, claims, covers);
    NoOffenders(levels, oldest, claims, covers, ds);
    ds := SpareOwners(ds);
  }

  /** Whatever part of two plans excise confirms under its lock may be dropped. */
  lemma PlanExcises(db: Db, claims: Claims, ds: seq<Doomed>, doomed: seq<Table>)
    requires TablesOk(db.levels) && (forall t :: Names(ds, t) <==> Droppable(db.levels, db.oldest, claims, t))
    requires forall t :: t in doomed ==> Names(ds, t)
    requires forall i :: 0 <= i < |db.pending| ==> !LocksConflict(doomed, Inputs(db.pending[i]))
    ensures MayExcise(db, doomed)
  {
    forall t | t in doomed ensures Droppable(db.levels, db.oldest, claims, t) { assert Names(ds, t); }
  }
}
