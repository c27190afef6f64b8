/**
 Resolving one key over its sources: the candidate that keeps the newest version, the
 `max_seq` early exit, the range-delete mask, and the operand fold.
 */
module PointRead {
  import opened Semantics

  /** What one source holds for the key being read, as the probes see it. */
  datatype Probe = Probe(points: History, covers: set<nat>, maxSeq: nat)

  function Points(ps: seq<Probe>): History
  {
    if ps == [] then map[] else Points(ps[1..]) + ps[0].points
  }

  function Covers(ps: seq<Probe>): set<nat>
  {
    if ps == [] then {} else ps[0].covers + Covers(ps[1..])
  }

  /** A source's versions are copies of those in `h`, and `max_seq` bounds them. */
  ghost predicate Fits(h: History, p: Probe)
  {
    forall n :: n in p.points ==> n <= p.maxSeq && n in h && h[n] == p.points[n]
  }

  ghost predicate Coherent(h: History, ps: seq<Probe>)
  {
    forall i :: 0 <= i < |ps| ==> Fits(h, ps[i])
  }

  /** The newest sequence at or below `s`. */
  function NewestIn(h: History, s: int): (r: Option<nat>)
    ensures s >= 0 ==> NewestAtMost(r, h.Keys, s)
    decreases s + 1
  {
    if s < 0 then None else if s in h then Some(s) else NewestIn(h, s - 1)
  }

  predicate Dead(e: Entry, now: int)
  {
    e.Tombstone? || (e.Put? && Expired(e.ttl, now))
  }

  /** The bytes a live version carries. */
  function Bytes(e: Entry): Value
  {
    match e
    case Put(v, _) => v
    case Tombstone(_) => []
    case Operand(v) => v
  }

  /** The newest of two sources is the newer of their newest. */
  lemma {:induction false} NewestUnion(a: History, b: History, s: nat)
    ensures NewestIn(a + b, s) ==
            if NewestIn(b, s).Some? && (NewestIn(a, s).None? || NewestIn(b, s).value > NewestIn(a, s).value)
            then NewestIn(b, s) else NewestIn(a, s)
  {
    NewestUnique(NewestIn(a + b, s),
                 if NewestIn(b, s).Some? && (NewestIn(a, s).None? || NewestIn(b, s).value > NewestIn(a, s).value)
                 then NewestIn(b, s) else NewestIn(a, s),
                 (a + b).Keys, s);
  }

  lemma {:induction false} NewestOverlay(a: History, covers: set<nat>, covering: Option<nat>, s: nat)
    requires NewestAtMost(covering, covers, s)
    ensures NewestIn(Overlay(a, covers), s) ==
            if covering.Some? && (NewestIn(a, s).None? || covering.value > NewestIn(a, s).value)
            then covering else NewestIn(a, s)
  {
    NewestUnique(NewestIn(Overlay(a, covers), s),
                 if covering.Some? && (NewestIn(a, s).None? || covering.value > NewestIn(a, s).value)
                 then covering else NewestIn(a, s),
                 Overlay(a, covers).Keys, s);
  }

  /** The newest version met so far, as its fields hold it. */
  datatype Candidate = Candidate(value: Value, seqno: nat, found: bool, deleted: bool, operand: bool,
      rangeFloor: Option<nat>)

  const NOTHING := Candidate([], 0, false, false, false, None)

  /** The candidate shows the newest version of `seen` at or below `s`. */
  ghost predicate Shows(c: Candidate, seen: History, s: nat, now: int)
  {
    match NewestIn(seen, s)
    case None => !c.found && !c.operand
    case Some(n) =>
      && n in seen && c.found && c.seqno == n && (c.deleted <==> Dead(seen[n], now))
          && (c.operand <==> seen[n].Operand?)
      && (!c.deleted ==> c.value == Bytes(seen[n]))
  }

  function Considered(c: Candidate, points: History, s: nat, now: int): Candidate
  {
    var lookup := NewestIn(points, s);
    if lookup.Some? && (!c.found || lookup.value > c.seqno) then
      var e := points[lookup.value];
      Candidate(Bytes(e), lookup.value, true, Dead(e, now), e.Operand?, c.rangeFloor)
    else c
  }

  function Masked(c: Candidate, covering: Option<nat>): Candidate
  {
    if covering.None? then c
    else if !c.found || covering.value > c.seqno then Candidate([], covering.value, true, true, false, covering)
    else c.(rangeFloor := covering)
  }

  predicate ResolvedAbove(c: Candidate, maxSeq: nat)
  {
    c.found && maxSeq <= c.seqno
  }

  lemma ConsideredShows(c: Candidate, seen: History, points: History, s: nat, now: int)
    requires Shows(c, seen, s, now) && forall n :: n in points && n in seen ==> points[n] == seen[n]
    ensures Shows(Considered(c, points, s, now), seen + points, s, now)
  {
    NewestUnion(seen, points, s);
  }

  /** A source that cannot hold anything newer changes nothing. */
  lemma SkippedShows(c: Candidate, seen: History, points: History, maxSeq: nat, s: nat, now: int)
    requires Shows(c, seen, s, now) && ResolvedAbove(c, maxSeq)
    requires forall n :: n in points ==> n <= maxSeq && (n in seen ==> points[n] == seen[n])
    ensures Shows(c, seen + points, s, now)
  {
    NewestUnion(seen, points, s);
  }

  lemma MaskedShows(c: Candidate, seen: History, covering: Option<nat>, covers: set<nat>, s: nat, now: int)
    requires Shows(c, seen, s, now) && NewestAtMost(covering, covers, s) && seen.Keys !! covers
    ensures Shows(Masked(c, covering), Overlay(seen, covers), s, now)
  {
    NewestOverlay(seen, covers, covering, s);
  }

  class PointReadCandidate {
    var value: Value
    var seqno: nat
    var found: bool
    var deleted: bool
    var operand: bool
    var rangeFloor: Option<nat>

    function State(): Candidate
      reads this
    {
      Candidate(value, seqno, found, deleted, operand, rangeFloor)
    }

    constructor ()
      ensures State() == NOTHING
    {
      value, seqno, found, deleted, operand, rangeFloor := [], 0, false, false, false, None;
    }

    /** Offer a source's newest visible version. */
    method Consider(points: History, s: nat, now: int)
      modifies this
      ensures State() == Considered(old(State()), points, s, now)
    {
      var lookup := NewestIn(points, s);
      if lookup.Some? && (!found || lookup.value > seqno) {
        var e := points[lookup.value];
        value, seqno, found, deleted, operand := Bytes(e), lookup.value, true, Dead(e, now), e.Operand?;
      }
    }

    /** Apply the newest covering range delete. */
    method Mask(covering: Option<nat>)
      modifies this
      ensures State() == Masked(old(State()), covering)
    {
      if covering.Some? {
        rangeFloor := covering;
        if !found || covering.value > seqno {
          value, seqno, found, deleted, operand := [], covering.value, true, true, false;
        }
      }
    }

    method Finish() returns (r: Outcome)
      ensures r == if found && !deleted then Found(value) else NotFound
    {
      r := if found && !deleted then Found(value) else NotFound;
    }
  }
}
