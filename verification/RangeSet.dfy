/** The range tombstones a memtable holds beside its points, ordered by start key. */
module RangeSet {
  import opened Semantics
  import opened Fragments

  predicate SortedByStart(spans: seq<Span>)
  {
    forall i, j :: 0 <= i < j < |spans| ==> spans[i].start <= spans[j].start
  }

  function MaxEnd(spans: seq<Span>): Key
    requires spans != []
  {
    var last := spans[|spans| - 1].end;
    if |spans| == 1 then last
    else
      var m := MaxEnd(spans[..|spans| - 1]);
      if m >= last then m else last
  }

  lemma {:induction false} MaxEndBounds(spans: seq<Span>, j: nat)
    requires j < |spans|
    ensures spans[j].end <= MaxEnd(spans)
  {
    if j < |spans| - 1 { MaxEndBounds(spans[..|spans| - 1], j); }
  }

  lemma SpanCoversWitness(spans: seq<Span>, k: Key, c: nat) returns (i: nat)
    requires c in SpanCovers(spans, k)
    ensures i < |spans| && spans[i].start <= k < spans[i].end && spans[i].seqno == c
  {
    if spans[0].start <= k < spans[0].end && spans[0].seqno == c {
      i := 0;
    } else {
      var j := SpanCoversWitness(spans[1..], k, c);
      i := j + 1;
    }
  }

  lemma {:induction false} SpanCoversMember(spans: seq<Span>, k: Key, i: nat)
    requires i < |spans| && spans[i].start <= k < spans[i].end
    ensures spans[i].seqno in SpanCovers(spans, k)
  {
    if i == 0 {
    } else {
      SpanCoversMember(spans[1..], k, i - 1);
    }
  }

  lemma {:induction false} InsertCovers(spans: seq<Span>, at: nat, s: Span, k: Key)
    requires at <= |spans|
    ensures SpanCovers(spans[..at] + [s] + spans[at..], k) == SpanCovers(spans, k) +
              if s.start <= k < s.end then {s.seqno} else {}
  {
    SpanCoversConcat(spans[..at] + [s], spans[at..], k);
    SpanCoversConcat(spans[..at], [s], k);
    SpanCoversConcat(spans[..at], spans[at..], k);
    assert spans == spans[..at] + spans[at..];
  }

  /** The prefix maxima recomputed from `at` on, each from the one before it. */
  method ExtendMaxEnds(spans: seq<Span>, at: nat, known: seq<Key>) returns (ends: seq<Key>)
    requires at == |known| <= |spans|
    requires forall j :: 0 <= j < at ==> known[j] == MaxEnd(spans[..j + 1])
    ensures |ends| == |spans|
    ensures forall j :: 0 <= j < |spans| ==> ends[j] == MaxEnd(spans[..j + 1])
  {
    ends := known;
    var i := at;
    while i < |spans|
      invariant at <= i == |ends| <= |spans|
      invariant forall j :: 0 <= j < i ==> ends[j] == MaxEnd(spans[..j + 1])
    {
      var end := spans[i].end;
      assert spans[..i + 1][..i] == spans[..i];
      var running := if i > 0 && ends[i - 1] >= end then ends[i - 1] else end;
      ends := ends + [running];
      i := i + 1;
    }
  }

  class RangeTombstoneSet {
    var spans: seq<Span>
    /** `prefixMaxEnd[i]` is the greatest end among `spans[..i + 1]`. */
    var prefixMaxEnd: seq<Key>

    ghost predicate Valid()
      reads this
    {
      && SortedByStart(spans)
      && |prefixMaxEnd| == |spans|
      && forall i :: 0 <= i < |spans| ==> prefixMaxEnd[i] == MaxEnd(spans[..i + 1])
    }

    constructor ()
      ensures Valid() && spans == []
    {
      spans, prefixMaxEnd := [], [];
    }

    /** How many spans start at or before `key`. */
    method StartsUpTo(key: Key) returns (at: nat)
      requires Valid()
      ensures at <= |spans|
      ensures forall i :: 0 <= i < at ==> spans[i].start <= key
      ensures forall i :: at <= i < |spans| ==> spans[i].start > key
    {
      var lo, hi := 0, |spans|;
      while lo < hi
        invariant 0 <= lo <= hi <= |spans|
        invariant forall i :: 0 <= i < lo ==> spans[i].start <= key
        invariant forall i :: hi <= i < |spans| ==> spans[i].start > key
      {
        var mid := (lo + hi) / 2;
        if spans[mid].start <= key { lo := mid + 1; } else { hi := mid; }
      }
      at := lo;
    }

    /** Adding a span adds its sequence to exactly the keys it covers. */
    method Add(s: Span)
      requires Valid()
      modifies this
      ensures Valid()
      ensures multiset(spans) == multiset(old(spans)) + multiset{s}
      ensures forall k: Key :: SpanCovers(spans, k) ==
                old(SpanCovers(spans, k)) + if s.start <= k < s.end then {s.seqno} else {}
    {
      hide MaxEnd, SpanCovers;
      var at := StartsUpTo(s.start);
      ghost var before := spans;
      assert before == before[..at] + before[at..];
      spans := spans[..at] + [s] + spans[at..];
      forall k: Key
        ensures SpanCovers(spans, k) == SpanCovers(before, k) + if s.start <= k < s.end then {s.seqno} else {}
      {
        InsertCovers(before, at, s, k);
      }
      forall i | 0 <= i < at ensures prefixMaxEnd[..at][i] == MaxEnd(spans[..i + 1]) {
        assert spans[..i + 1] == before[..i + 1];
      }
      prefixMaxEnd := ExtendMaxEnds(spans, at, prefixMaxEnd[..at]);
    }

    /** The newest visible span over `key`; the backward scan stops once no earlier
        span can reach past the key. */
    method CoveringSeq(key: Key, readSeq: nat) returns (best: Option<nat>)
      requires Valid()
      ensures NewestAtMost(best, SpanCovers(spans, key), readSeq)
    {
      var i := StartsUpTo(key);
      best := None;
      ghost var all := i;
      while i > 0
        invariant 0 <= i <= all
        invariant best.Some? ==> best.value <= readSeq && best.value in SpanCovers(spans, key)
        invariant forall j :: i <= j < |spans| && spans[j].start <= key < spans[j].end && spans[j].seqno <= readSeq ==>
                    best.Some? && spans[j].seqno <= best.value
      {
        if prefixMaxEnd[i - 1] <= key {
          forall j | 0 <= j < i ensures spans[j].end <= key {
            MaxEndBounds(spans[..i], j);
          }
          break;
        }
        i := i - 1;
        var s := spans[i];
        if s.seqno <= readSeq && s.end > key {
          SpanCoversMember(spans, key, i);
          best := if best.Some? && best.value >= s.seqno then best else Some(s.seqno);
        }
      }
      forall c | c in SpanCovers(spans, key) && c <= readSeq ensures best.Some? && c <= best.value {
        var j := SpanCoversWitness(spans, key, c);
      }
    }
  }
}
