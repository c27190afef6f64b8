/** `get_into`: the same resolution with the winner kept in the caller's buffer. */
module GetInto {
  import opened Semantics
  import opened PointRead
  import opened GetImpl

  class BufCandidate {
    var out: seq<Byte>
    const start: nat
    var found: bool
    var seqno: nat
    var deleted: bool
    var operand: bool
    var rangeFloor: Option<nat>
    ghost const prefix: seq<Byte>
    ghost var seen: History

    /** The buffer is the caller's prefix, then the winner's bytes if it is live. */
    ghost predicate Shows(s: nat, now: int)
      reads this
    {
      && |prefix| == start
      && match NewestIn(seen, s)
         case None => !found && !operand && out == prefix
         case Some(n) =>
           && n in seen && found && seqno == n && (deleted <==> Dead(seen[n], now)) && (operand <==> seen[n].Operand?)
           && out == prefix + if deleted then [] else Bytes(seen[n])
    }

    constructor (buffer: seq<Byte>)
      ensures prefix == buffer && seen == map[] && rangeFloor == None && forall s: nat, now: int :: Shows(s, now)
    {
      out, start, found, seqno, deleted, operand, rangeFloor := buffer, |buffer|, false, 0, false, false, None;
      prefix, seen := buffer, map[];
      new;
      forall s: nat, now: int ensures Shows(s, now) { }
    }

    /** A memtable version is copied in place of the winner it beats. */
    method Offer(points: History, s: nat, now: int)
      requires Shows(s, now) && forall n :: n in points && n in seen ==> points[n] == seen[n]
      modifies this
      ensures seen == old(seen) + points && Shows(s, now) && rangeFloor == old(rangeFloor)
    {
      var lookup := NewestIn(points, s);
      NewestUnion(seen, points, s);
      if lookup.Some? && !(found && lookup.value <= seqno) {
        var e := points[lookup.value];
        assert out[..start] == prefix;
        out := out[..start];
        if !Dead(e, now) { out := out + Bytes(e); }
        found, seqno, deleted, operand := true, lookup.value, Dead(e, now), e.Operand?;
      }
      seen := seen + points;
    }

    /** A table's value is appended after the winner, and moved down over it if it wins. */
    method ProbeTable(points: History, s: nat, now: int)
      requires Shows(s, now) && forall n :: n in points && n in seen ==> points[n] == seen[n]
      modifies this
      ensures seen == old(seen) + points && Shows(s, now) && rangeFloor == old(rangeFloor)
    {
      var tail := |out|;
      var lookup := NewestIn(points, s);
      NewestUnion(seen, points, s);
      ghost var before := out;
      if lookup.Some? && !Dead(points[lookup.value], now) { out := out + Bytes(points[lookup.value]); }
      if lookup.Some? && (!found || lookup.value > seqno) {
        var e := points[lookup.value];
        assert out[..start] == prefix && out[tail..] == if Dead(e, now) then [] else Bytes(e);
        out := out[..start] + out[tail..];
        found, seqno, deleted, operand := true, lookup.value, Dead(e, now), e.Operand?;
      } else {
        assert out[..tail] == before;
        out := out[..tail];
      }
      seen := seen + points;
    }

    ghost method Skip(points: History, s: nat, now: int)
      requires Shows(s, now) && found && forall n :: n in points ==> n <= seqno && (n in seen ==> points[n] == seen[n])
      modifies this`seen
      ensures seen == old(seen) + points && Shows(s, now)
    {
      NewestUnion(seen, points, s);
      seen := seen + points;
    }

    method Mask(covering: Option<nat>, s: nat, now: int, ghost covers: set<nat>)
      requires Shows(s, now) && NewestAtMost(covering, covers, s) && seen.Keys !! covers && rangeFloor == None
      modifies this
      ensures seen == Overlay(old(seen), covers) && Shows(s, now) && rangeFloor == covering
    {
      NewestOverlay(seen, covers, covering, s);
      if covering.Some? {
        rangeFloor := covering;
        if !found || covering.value > seqno {
          assert out[..start] == prefix;
          out := out[..start];
          found, seqno, deleted, operand := true, covering.value, true, false;
        }
      }
      seen := Overlay(seen, covers);
    }
  }

  method OfferMemtables(c: BufCandidate, mems: seq<Probe>, s: nat, now: int, ghost points: History)
    requires c.Shows(s, now) && c.seen == map[] && c.rangeFloor == None && Coherent(points, mems)
    modifies c
    ensures c.Shows(s, now) && c.rangeFloor == None && Within(c.seen, points) && Considers(c.seen, mems)
  {
    var i := 0;
    while i < |mems|
      invariant 0 <= i <= |mems| && c.Shows(s, now) && c.rangeFloor == None
      invariant Within(c.seen, points) && Considers(c.seen, mems[..i])
    {
      c.Offer(mems[i].points, s, now);
      i := i + 1;
    }
    assert mems[..|mems|] == mems;
  }

  method ProbeTables(c: BufCandidate, tables: seq<Probe>, s: nat, now: int, ghost whole: History)
    requires c.Shows(s, now) && Within(c.seen, whole) && Coherent(whole, tables)
    modifies c
    ensures c.Shows(s, now) && c.rangeFloor == old(c.rangeFloor)
    ensures Within(c.seen, whole) && Within(old(c.seen), c.seen) && Considers(c.seen, tables)
  {
    var i := 0;
    while i < |tables|
      invariant 0 <= i <= |tables| && c.Shows(s, now) && c.rangeFloor == old(c.rangeFloor)
      invariant Within(c.seen, whole) && Within(old(c.seen), c.seen) && Considers(c.seen, tables[..i])
    {
      assert Fits(whole, tables[i]);
      if c.found && tables[i].maxSeq <= c.seqno {
        c.Skip(tables[i].points, s, now);
      } else {
        c.ProbeTable(tables[i].points, s, now);
      }
      i := i + 1;
    }
    assert tables[..|tables|] == tables;
  }

  method ResolveInto(buffer: seq<Byte>, mems: seq<Probe>, tables: seq<Probe>, ranged: seq<Probe>, s: nat, now: int)
    returns (c: BufCandidate)
    requires Readable(mems + tables, ranged)
    ensures fresh(c) && c.prefix == buffer && c.Shows(s, now) && c.seen == Whole(mems + tables, ranged)
    ensures NewestAtMost(c.rangeFloor, Covers(mems + tables + ranged), s)
  {
    ghost var all := mems + tables;
    ghost var points, covers := Points(all), Covers(all + ranged);
    CoherentSplit(points, mems, tables);
    CoherentOverlay(points, covers, tables);
    c := new BufCandidate(buffer);
    OfferMemtables(c, mems, s, now, points);
    var covering := CoveringRangeSeq(mems + tables + ranged, s);
    c.Mask(covering, s, now, covers);
    ghost var masked := c.seen;
    ProbeTables(c, tables, s, now, Whole(all, ranged));
    forall n | n in covers ensures n in c.seen { assert n in masked; }
    forall j, n | 0 <= j < |all| && n in all[j].points ensures n in c.seen {
      if j < |mems| { assert n in masked; } else { assert n in tables[j - |mems|].points; }
    }
    AllConsidered(c.seen, all, ranged);
  }

  datatype Into = Wrote(len: nat) | Miss | Broken

  /** `get_into`: on a hit the value is appended to the buffer, whatever the buffer held;
      on a miss or an operator error the buffer is as it was. */
  method GetInto(op: MergeOp, k: Key, mems: seq<Probe>, tables: seq<Probe>, ranged: seq<Probe>, s: nat, now: int,
                 buffer: seq<Byte>)
    returns (out: seq<Byte>, r: Into)
    requires Readable(mems + tables, ranged)
    ensures match Read(Reader(op, k, now), Whole(mems + tables, ranged), s)
            case Found(v) => out == buffer + v && r == Wrote(|v|)
            case NotFound => out == buffer && r == Miss
            case Corrupt => out == buffer && r == Broken
  {
    var c := ResolveInto(buffer, mems, tables, ranged, s, now);
    NewestAnswers(Whole(mems + tables, ranged), s, Reader(op, k, now));
    if c.operand {
      assert c.out[..c.start] == buffer;
      out := c.out[..c.start];
      var folded := FoldPointChain(op, k, mems + tables, s, now, c.rangeFloor, Covers(mems + tables + ranged));
      if folded.Found? {
        return out + folded.value, Wrote(|folded.value|);
      }
      return out, if folded.NotFound? then Miss else Broken;
    }
    if c.found && !c.deleted {
      return c.out, Wrote(|c.out| - c.start);
    }
    return c.out[..c.start], Miss;
  }
}
