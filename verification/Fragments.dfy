/**
 Range tombstones: the live spans a memtable holds, the sorted disjoint fragments
 they become at flush and compaction, and the lookups over both. Every form is
 measured by the set of sequences covering one key.
 */
module Fragments {
  import opened Semantics

  datatype Span = Span(start: Key, end: Key, seqno: nat)
  datatype Fragment = Fragment(start: Key, end: Key, seqs: seq<nat>)

  function SpanCovers(spans: seq<Span>, k: Key): set<nat>
  {
    if spans == [] then {}
    else SpanCovers(spans[1..], k) + if spans[0].start <= k < spans[0].end then {spans[0].seqno} else {}
  }

  function Elements(seqs: seq<nat>): set<nat>
  {
    set s | s in seqs
  }

  function CoversOf(frags: seq<Fragment>, k: Key): set<nat>
  {
    if frags == [] then {}
    else CoversOf(frags[1..], k) + if frags[0].start <= k < frags[0].end then Elements(frags[0].seqs) else {}
  }

  predicate Descending(seqs: seq<nat>)
  {
    forall i, j :: 0 <= i < j < |seqs| ==> seqs[i] > seqs[j]
  }

  /** Sorted, disjoint, and no fragment is empty. */
  predicate Tidy(frags: seq<Fragment>)
  {
    && (forall i :: 0 <= i < |frags| ==> Sound(frags[i]))
    && (forall i, j :: 0 <= i < j < |frags| ==> frags[i].end <= frags[j].start)
  }

  /** Every fragment lies in `[lo, hi)`. */
  predicate Bounded(frags: seq<Fragment>, lo: Option<Key>, hi: Option<Key>)
  {
    forall i :: 0 <= i < |frags| ==>
        (lo.Some? ==> lo.value <= frags[i].start) && (hi.Some? ==> frags[i].end <= hi.value)
  }

  predicate Sound(f: Fragment)
  {
    f.start < f.end && f.seqs != [] && Descending(f.seqs)
  }

  lemma TidyPrepend(f: Fragment, frags: seq<Fragment>)
    requires Sound(f) && Tidy(frags) && Bounded(frags, Some(f.end), None)
    ensures Tidy([f] + frags)
  {
  }

  lemma TidyAppend(frags: seq<Fragment>, f: Fragment)
    requires Sound(f) && Tidy(frags) && Bounded(frags, None, Some(f.start))
    ensures Tidy(frags + [f])
  {
  }

  lemma {:induction false} CoversConcat(a: seq<Fragment>, b: seq<Fragment>, k: Key)
    ensures CoversOf(a + b, k) == CoversOf(a, k) + CoversOf(b, k)
  {
    if a == [] {
      assert a + b == b;
    } else {
      assert (a + b)[1..] == a[1..] + b;
      CoversConcat(a[1..], b, k);
    }
  }

  lemma {:induction false} SpanCoversConcat(a: seq<Span>, b: seq<Span>, k: Key)
    ensures SpanCovers(a + b, k) == SpanCovers(a, k) + SpanCovers(b, k)
  {
    if a == [] {
      assert a + b == b;
    } else {
      assert (a + b)[1..] == a[1..] + b;
      SpanCoversConcat(a[1..], b, k);
    }
  }

  lemma {:induction false} CoversOutside(frags: seq<Fragment>, k: Key)
    requires forall i :: 0 <= i < |frags| ==> k < frags[i].start || frags[i].end <= k
    ensures CoversOf(frags, k) == {}
  {
    if frags == [] {
    } else {
      CoversOutside(frags[1..], k);
    }
  }

  lemma {:induction false} CoversAt(frags: seq<Fragment>, i: nat, k: Key)
    requires Tidy(frags) && i < |frags| && frags[i].start <= k < frags[i].end
    ensures CoversOf(frags, k) == Elements(frags[i].seqs)
  {
    assert frags == frags[..i] + [frags[i]] + frags[i + 1..];
    CoversConcat(frags[..i] + [frags[i]], frags[i + 1..], k);
    CoversConcat(frags[..i], [frags[i]], k);
    CoversOutside(frags[..i], k);
    CoversOutside(frags[i + 1..], k);
  }

  /** A cover comes from a fragment that contains the key. */
  lemma CoverWitness(frags: seq<Fragment>, k: Key, c: nat) returns (i: nat)
    requires c in CoversOf(frags, k)
    ensures i < |frags| && frags[i].start <= k < frags[i].end && c in frags[i].seqs
  {
    if frags[0].start <= k < frags[0].end && c in frags[0].seqs {
      i := 0;
    } else {
      var j := CoverWitness(frags[1..], k, c);
      i := j + 1;
    }
  }

  // ---- lookups ---------------------------------------------------------------------

  /** First sequence at or below `readSeq` of a descending stack. */
  method VisibleSeq(f: Fragment, readSeq: nat) returns (r: Option<nat>)
    requires Descending(f.seqs)
    ensures NewestAtMost(r, Elements(f.seqs), readSeq)
  {
    var i := 0;
    while i < |f.seqs|
      invariant 0 <= i <= |f.seqs|
      invariant forall j :: 0 <= j < i ==> f.seqs[j] > readSeq
    {
      if f.seqs[i] <= readSeq {
        assert f.seqs[i] in Elements(f.seqs);
        return Some(f.seqs[i]);
      }
      i := i + 1;
    }
    return None;
  }

  /** `covering_seq_in`: binary search for the one fragment that can hold `key`. */
  method CoveringSeqIn(frags: seq<Fragment>, key: Key, readSeq: nat) returns (r: Option<nat>)
    requires Tidy(frags)
    ensures NewestAtMost(r, CoversOf(frags, key), readSeq)
  {
    var lo, hi := 0, |frags|;
    while lo < hi
      invariant 0 <= lo <= hi <= |frags|
      invariant forall i :: 0 <= i < lo ==> frags[i].end <= key
      invariant forall i :: hi <= i < |frags| ==> frags[i].end > key
    {
      var mid := (lo + hi) / 2;
      if frags[mid].end <= key { lo := mid + 1; } else { hi := mid; }
    }
    if lo == |frags| || frags[lo].start > key {
      CoversOutside(frags, key);
      return None;
    }
    CoversAt(frags, lo, key);
    r := VisibleSeq(frags[lo], readSeq);
  }

  // ---- fragmentation ---------------------------------------------------------------

  predicate Ascending(ks: seq<Key>)
  {
    forall i, j :: 0 <= i < j < |ks| ==> ks[i] < ks[j]
  }

  /** Insert into an ascending list without duplicates. */
  function InsertKey(ks: seq<Key>, k: Key): (r: seq<Key>)
    requires Ascending(ks)
    ensures Ascending(r)
    ensures forall x :: x in r <==> x in ks || x == k
  {
    if ks == [] then [k]
    else if k < ks[0] then [k] + ks
    else if k == ks[0] then ks
    else
      var rest := InsertKey(ks[1..], k);
      assert forall i :: 0 <= i < |rest| ==> rest[i] in rest;
      [ks[0]] + rest
  }

  /** `sort` followed by `dedup` under the comparator. */
  function SortKeys(ks: seq<Key>): (r: seq<Key>)
    ensures Ascending(r)
    ensures forall x :: x in r <==> x in ks
  {
    if ks == [] then [] else InsertKey(SortKeys(ks[1..]), ks[0])
  }

  function InsertSeq(ss: seq<nat>, s: nat): (r: seq<nat>)
    requires Descending(ss)
    ensures Descending(r)
    ensures forall x :: x in r <==> x in ss || x == s
  {
    if ss == [] then [s]
    else if s > ss[0] then [s] + ss
    else if s == ss[0] then ss
    else
      var rest := InsertSeq(ss[1..], s);
      assert forall i :: 0 <= i < |rest| ==> rest[i] in rest;
      [ss[0]] + rest
  }

  /** The distinct sequences of the spans that contain all of `[a, b)`, newest first. */
  function SpanStack(spans: seq<Span>, a: Key, b: Key): (r: seq<nat>)
    ensures Descending(r)
  {
    if spans == [] then []
    else
      var rest := SpanStack(spans[1..], a, b);
      if spans[0].start <= a && b <= spans[0].end then InsertSeq(rest, spans[0].seqno) else rest
  }

  function ClipLow(k: Key, lower: Option<Key>): Key
  {
    if lower.Some? && k < lower.value then lower.value else k
  }

  function ClipHigh(k: Key, upper: Option<Key>): Key
  {
    if upper.Some? && k > upper.value then upper.value else k
  }

  predicate InBounds(k: Key, lower: Option<Key>, upper: Option<Key>)
  {
    (lower.Some? ==> lower.value <= k) && (upper.Some? ==> k < upper.value)
  }

  /** The clipped endpoints of every span that reaches into the interval. */
  function Endpoints(spans: seq<Span>, lower: Option<Key>, upper: Option<Key>): seq<Key>
  {
    if spans == [] then []
    else
      var a, b := ClipLow(spans[0].start, lower), ClipHigh(spans[0].end, upper);
      (if a >= b then [] else [a, b]) + Endpoints(spans[1..], lower, upper)
  }

  lemma {:induction false} EndpointsBounded(spans: seq<Span>, lower: Option<Key>, upper: Option<Key>, x: Key)
    requires x in Endpoints(spans, lower, upper)
    ensures (lower.Some? ==> lower.value <= x) && (upper.Some? ==> x <= upper.value)
  {
    var a, b := ClipLow(spans[0].start, lower), ClipHigh(spans[0].end, upper);
    if x !in (if a >= b then [] else [a, b]) {
      EndpointsBounded(spans[1..], lower, upper, x);
    }
  }

  /** Between neighbouring endpoints every key is covered by the same sequences. */
  lemma {:induction false} SlabCovers(spans: seq<Span>, lower: Option<Key>, upper: Option<Key>, a: Key, b: Key, k: Key)
    requires a <= k < b && InBounds(k, lower, upper)
    requires forall x :: x in Endpoints(spans, lower, upper) ==> x <= a || b <= x
    ensures Elements(SpanStack(spans, a, b)) == SpanCovers(spans, k)
  {
    if spans == [] {
    } else {
      var p, q := ClipLow(spans[0].start, lower), ClipHigh(spans[0].end, upper);
      var own := if p >= q then [] else [p, q];
      assert Endpoints(spans, lower, upper) == own + Endpoints(spans[1..], lower, upper);
      forall x | x in Endpoints(spans[1..], lower, upper) ensures x <= a || b <= x {
        assert x in Endpoints(spans, lower, upper);
      }
      SlabCovers(spans[1..], lower, upper, a, b, k);
      if spans[0].start <= k < spans[0].end {
        assert own[0] in Endpoints(spans, lower, upper) && own[1] in Endpoints(spans, lower, upper);
      }
    }
  }

  /** Before every endpoint nothing is covered ... */
  lemma {:induction false} BelowCovers(spans: seq<Span>, lower: Option<Key>, upper: Option<Key>, k: Key)
    requires InBounds(k, lower, upper) && forall x :: x in Endpoints(spans, lower, upper) ==> k < x
    ensures SpanCovers(spans, k) == {}
  {
    if spans == [] {
    } else {
      var p, q := ClipLow(spans[0].start, lower), ClipHigh(spans[0].end, upper);
      var own := if p >= q then [] else [p, q];
      assert Endpoints(spans, lower, upper) == own + Endpoints(spans[1..], lower, upper);
      forall x | x in Endpoints(spans[1..], lower, upper) ensures k < x {
        assert x in Endpoints(spans, lower, upper);
      }
      BelowCovers(spans[1..], lower, upper, k);
      if own != [] { assert own[0] in Endpoints(spans, lower, upper); }
    }
  }

  /** ... and nothing at or past the last. */
  lemma {:induction false} AboveCovers(spans: seq<Span>, lower: Option<Key>, upper: Option<Key>, k: Key)
    requires InBounds(k, lower, upper) && forall x :: x in Endpoints(spans, lower, upper) ==> x <= k
    ensures SpanCovers(spans, k) == {}
  {
    if spans == [] {
    } else {
      var p, q := ClipLow(spans[0].start, lower), ClipHigh(spans[0].end, upper);
      var own := if p >= q then [] else [p, q];
      assert Endpoints(spans, lower, upper) == own + Endpoints(spans[1..], lower, upper);
      forall x | x in Endpoints(spans[1..], lower, upper) ensures x <= k {
        assert x in Endpoints(spans, lower, upper);
      }
      AboveCovers(spans[1..], lower, upper, k);
      if own != [] { assert own[1] in Endpoints(spans, lower, upper); }
    }
  }

  /** `out` tells the coverage of `spans` for the keys in `[from, upto)`, and nothing else. */
  ghost predicate Tells(out: seq<Fragment>, spans: seq<Span>, from: Key, upto: Key)
  {
    forall k: Key :: CoversOf(out, k) == if from <= k < upto then SpanCovers(spans, k) else {}
  }

  lemma {:induction false} TellsAppend(out: seq<Fragment>, spans: seq<Span>, from: Key, f: Fragment)
    requires from <= f.start <= f.end
    requires Tells(out, spans, from, f.start)
    requires forall k: Key :: f.start <= k < f.end ==> Elements(f.seqs) == SpanCovers(spans, k)
    ensures Tells(out + [f], spans, from, f.end)
  {
    forall k: Key ensures CoversOf(out + [f], k) == if from <= k < f.end then SpanCovers(spans, k) else {} {
      CoversConcat(out, [f], k);
      assert CoversOf(out, k) == if from <= k < f.start then SpanCovers(spans, k) else {};
    }
  }

  lemma {:induction false} TellsSkip(out: seq<Fragment>, spans: seq<Span>, from: Key, a: Key, b: Key)
    requires from <= a <= b && Tells(out, spans, from, a) && forall k: Key :: a <= k < b ==> SpanCovers(spans, k) == {}
    ensures Tells(out, spans, from, b)
  {
  }

  /** Fragments that tell everything between the outermost endpoints tell everything. */
  lemma {:induction false} TellsAll(out: seq<Fragment>, spans: seq<Span>, lower: Option<Key>, upper: Option<Key>,
                                    from: Key, upto: Key, k: Key)
    requires Tells(out, spans, from, upto) && forall x :: x in Endpoints(spans, lower, upper) ==> from <= x <= upto
    requires (lower.Some? ==> lower.value <= from) && (upper.Some? ==> upto <= upper.value)
    ensures CoversOf(out, k) == if InBounds(k, lower, upper) then SpanCovers(spans, k) else {}
  {
    hide Endpoints;
    assert CoversOf(out, k) == if from <= k < upto then SpanCovers(spans, k) else {};
    if InBounds(k, lower, upper) {
      if k < from { BelowCovers(spans, lower, upper, k); }
      if upto <= k { AboveCovers(spans, lower, upper, k); }
    }
  }

  lemma {:induction false} TellsExtend(init: seq<Fragment>, spans: seq<Span>, from: Key, last: Fragment, b: Key)
    requires from <= last.start < last.end <= b
    requires Bounded(init, None, Some(last.start))
    requires Tells(init + [last], spans, from, last.end)
    requires forall k: Key :: last.end <= k < b ==> Elements(last.seqs) == SpanCovers(spans, k)
    ensures Tells(init + [last.(end := b)], spans, from, b)
  {
    var f := last.(end := b);
    forall k: Key ensures CoversOf(init + [f], k) == if from <= k < b then SpanCovers(spans, k) else {} {
      CoversConcat(init, [last], k);
      CoversConcat(init, [f], k);
      if last.start <= k { CoversOutside(init, k); }
      assert CoversOf(init + [last], k) == if from <= k < last.end then SpanCovers(spans, k) else {};
    }
  }

  /** Abutting fragments carry different stacks. */
  ghost predicate Coalesced(frags: seq<Fragment>)
  {
    forall i, j :: 0 <= i < j < |frags| && j == i + 1 && frags[i].end == frags[j].start ==>
        frags[i].seqs != frags[j].seqs
  }

  lemma CoalescedAppend(out: seq<Fragment>, f: Fragment)
    requires Coalesced(out) && (out != [] && out[|out| - 1].end == f.start ==> out[|out| - 1].seqs != f.seqs)
    ensures Coalesced(out + [f])
  {
  }

  lemma CoalescedExtend(init: seq<Fragment>, last: Fragment, b: Key)
    requires Coalesced(init + [last])
    ensures Coalesced(init + [last.(end := b)])
  {
    var was, now := init + [last], init + [last.(end := b)];
    forall i, j | 0 <= i < j < |now| && j == i + 1 && now[i].end == now[j].start ensures now[i].seqs != now[j].seqs {
      assert was[i].end == was[j].start ==> was[i].seqs != was[j].seqs;
    }
  }

  /** One slab: dropped when nothing covers it, merged into its neighbour when the stacks agree. */
  method AddSlab(out: seq<Fragment>, spans: seq<Span>, lower: Option<Key>, upper: Option<Key>, from: Key, a: Key,
                 b: Key)
    returns (r: seq<Fragment>)
    requires Tidy(out) && Bounded(out, Some(from), Some(a))
    requires from <= a < b
    requires (lower.Some? ==> lower.value <= a) && (upper.Some? ==> b <= upper.value)
    requires forall x :: x in Endpoints(spans, lower, upper) ==> x <= a || b <= x
    requires Tells(out, spans, from, a) && Coalesced(out)
    ensures Tidy(r) && Bounded(r, Some(from), Some(b)) && Coalesced(r)
    ensures Tells(r, spans, from, b)
  {
    hide Coalesced, Tells, Endpoints, SpanCovers;
    var seqs := SpanStack(spans, a, b);
    forall k: Key | a <= k < b ensures Elements(seqs) == SpanCovers(spans, k) {
      SlabCovers(spans, lower, upper, a, b, k);
    }
    if seqs == [] {
      TellsSkip(out, spans, from, a, b);
      r := out;
    } else if out != [] && out[|out| - 1].seqs == seqs && out[|out| - 1].end == a {
      var init, last := out[..|out| - 1], out[|out| - 1];
      assert out == init + [last];
      TellsExtend(init, spans, from, last, b);
      TidyAppend(init, last.(end := b));
      CoalescedExtend(init, last, b);
      r := init + [last.(end := b)];
    } else {
      var f := Fragment(a, b, seqs);
      TellsAppend(out, spans, from, f);
      TidyAppend(out, f);
      CoalescedAppend(out, f);
      r := out + [f];
    }
  }

  /** `fragment_spans`: the spans' coverage over `[lower, upper)` as tidy fragments. */
  method FragmentSpans(spans: seq<Span>, lower: Option<Key>, upper: Option<Key>) returns (out: seq<Fragment>)
    ensures Tidy(out)
    ensures Bounded(out, lower, upper) && Coalesced(out)
    ensures forall k: Key :: CoversOf(out, k) == if InBounds(k, lower, upper) then SpanCovers(spans, k) else {}
  {
    hide Endpoints, SpanCovers;
    var bounds := SortKeys(Endpoints(spans, lower, upper));
    out := [];
    if bounds == [] {
      forall k: Key | InBounds(k, lower, upper) ensures SpanCovers(spans, k) == {} {
        BelowCovers(spans, lower, upper, k);
      }
      return;
    }
    forall i | 0 <= i < |bounds|
      ensures (lower.Some? ==> lower.value <= bounds[i]) && (upper.Some? ==> bounds[i] <= upper.value)
    {
      EndpointsBounded(spans, lower, upper, bounds[i]);
    }
    var i := 0;
    while i + 1 < |bounds|
      invariant 0 <= i < |bounds|
      invariant Tidy(out) && Coalesced(out)
      invariant Bounded(out, Some(bounds[0]), Some(bounds[i]))
      invariant Tells(out, spans, bounds[0], bounds[i])
    {
      out := AddSlab(out, spans, lower, upper, bounds[0], bounds[i], bounds[i + 1]);
      i := i + 1;
    }
    forall k: Key ensures CoversOf(out, k) == if InBounds(k, lower, upper) then SpanCovers(spans, k) else {} {
      TellsAll(out, spans, lower, upper, bounds[0], bounds[i], k);
    }
  }

  // ---- explode, retain, clip ---------------------------------------------------------

  function SpansOfStack(start: Key, end: Key, seqs: seq<nat>): seq<Span>
  {
    if seqs == [] then [] else [Span(start, end, seqs[0])] + SpansOfStack(start, end, seqs[1..])
  }

  /** `spans_of_fragments`: one span per interval and sequence. */
  function SpansOfFragments(frags: seq<Fragment>): seq<Span>
  {
    if frags == [] then []
    else SpansOfStack(frags[0].start, frags[0].end, frags[0].seqs) + SpansOfFragments(frags[1..])
  }

  lemma {:induction false} ExplodeStack(start: Key, end: Key, seqs: seq<nat>, k: Key)
    ensures SpanCovers(SpansOfStack(start, end, seqs), k) == if start <= k < end then Elements(seqs) else {}
  {
    if seqs == [] {
    } else {
      ExplodeStack(start, end, seqs[1..], k);
      assert Elements(seqs) == Elements(seqs[1..]) + {seqs[0]};
      assert SpansOfStack(start, end, seqs)[1..] == SpansOfStack(start, end, seqs[1..]);
    }
  }

  lemma {:induction false} ExplodeKeepsCovers(frags: seq<Fragment>, k: Key)
    ensures SpanCovers(SpansOfFragments(frags), k) == CoversOf(frags, k)
  {
    if frags == [] {
    } else {
      ExplodeKeepsCovers(frags[1..], k);
      ExplodeStack(frags[0].start, frags[0].end, frags[0].seqs, k);
      SpanCoversConcat(SpansOfStack(frags[0].start, frags[0].end, frags[0].seqs), SpansOfFragments(frags[1..]), k);
    }
  }

  /** `retained_fragment_seqs` on one descending stack. */
  function RetainedSeqs(seqs: seq<nat>, oldest: nat, droppable: bool): (r: seq<nat>)
    ensures Descending(seqs) ==> Descending(r)
    ensures forall x :: x in r ==> x in seqs
  {
    if seqs == [] then []
    else if seqs[0] > oldest then
      var rest := RetainedSeqs(seqs[1..], oldest, droppable);
      assert forall i :: 0 <= i < |rest| ==> rest[i] in rest;
      [seqs[0]] + rest
    else if droppable then [] else [seqs[0]]
  }

  lemma ElementsHead(seqs: seq<nat>)
    requires seqs != []
    ensures Elements(seqs) == Elements(seqs[1..]) + {seqs[0]}
  {
    assert seqs == [seqs[0]] + seqs[1..];
  }

  lemma NewestAbove(seqs: seq<nat>, oldest: nat, x: nat)
    requires seqs != [] && seqs[0] > oldest
    ensures NewestAtMost(Some(x), Elements(seqs), oldest) <==> NewestAtMost(Some(x), Elements(seqs[1..]), oldest)
  {
    hide Elements;
    ElementsHead(seqs);
  }

  lemma NewestFirst(seqs: seq<nat>, oldest: nat, x: nat)
    requires Descending(seqs) && seqs != [] && seqs[0] <= oldest
    ensures NewestAtMost(Some(x), Elements(seqs), oldest) <==> x == seqs[0]
    ensures x in seqs ==> x <= oldest
  {
    assert seqs[0] in Elements(seqs);
    assert forall y :: y in seqs ==> y <= seqs[0];
  }

  /** Everything above `oldest`, plus the newest at or below it unless it may be dropped. */
  lemma {:induction false} RetainedMeaning(seqs: seq<nat>, oldest: nat, droppable: bool, x: nat)
    requires Descending(seqs)
    ensures x in RetainedSeqs(seqs, oldest, droppable) <==>
            x in seqs && (x > oldest || (!droppable && NewestAtMost(Some(x), Elements(seqs), oldest)))
    decreases |seqs|
  {
    if seqs == [] {
    } else {
      hide NewestAtMost, Elements;
      assert x in seqs <==> x == seqs[0] || x in seqs[1..];
      if seqs[0] > oldest {
        NewestAbove(seqs, oldest, x);
        RetainedMeaning(seqs[1..], oldest, droppable, x);
      } else {
        NewestFirst(seqs, oldest, x);
      }
    }
  }

  /** The fragments a job writes back: `retained_fragment_seqs` per stack, empty ones dropped. */
  function RetainedFragments(frags: seq<Fragment>, oldest: nat, droppable: bool): seq<Fragment>
  {
    if frags == [] then []
    else
      var seqs := RetainedSeqs(frags[0].seqs, oldest, droppable);
      (if seqs == [] then [] else [frags[0].(seqs := seqs)]) + RetainedFragments(frags[1..], oldest, droppable)
  }

  /** `clip_fragments` to `[lower, upper)`. */
  function ClipFragments(frags: seq<Fragment>, lower: Option<Key>, upper: Option<Key>): seq<Fragment>
  {
    if frags == [] then []
    else
      var a, b := ClipLow(frags[0].start, lower), ClipHigh(frags[0].end, upper);
      (if a >= b then [] else [Fragment(a, b, frags[0].seqs)]) + ClipFragments(frags[1..], lower, upper)
  }

  lemma BoundedPrepend(f: Fragment, frags: seq<Fragment>, lo: Option<Key>, hi: Option<Key>)
    requires Bounded(frags, lo, hi) && (lo.Some? ==> lo.value <= f.start) && (hi.Some? ==> f.end <= hi.value)
    ensures Bounded([f] + frags, lo, hi)
  {
  }

  lemma TidyTail(frags: seq<Fragment>, lo: Option<Key>, hi: Option<Key>)
    requires Tidy(frags) && Bounded(frags, lo, hi) && frags != []
    ensures Tidy(frags[1..]) && Bounded(frags[1..], lo, hi) && Sound(frags[0])
    ensures (lo.Some? ==> lo.value <= frags[0].start) && (hi.Some? ==> frags[0].end <= hi.value)
  {
  }

  lemma {:induction false} ClipBounded(frags: seq<Fragment>, lower: Option<Key>, upper: Option<Key>, lo: Option<Key>,
                                       hi: Option<Key>)
    requires Bounded(frags, lo, hi)
    ensures Bounded(ClipFragments(frags, lower, upper), lo, hi)
    ensures Bounded(ClipFragments(frags, lower, upper), lower, upper)
    decreases |frags|
  {
    if frags == [] {
    } else {
      var a, b := ClipLow(frags[0].start, lower), ClipHigh(frags[0].end, upper);
      var head, rest := Fragment(a, b, frags[0].seqs), ClipFragments(frags[1..], lower, upper);
      assert (lo.Some? ==> lo.value <= a) && (hi.Some? ==> b <= hi.value);
      assert (lower.Some? ==> lower.value <= a) && (upper.Some? ==> b <= upper.value);
      assert Bounded(frags[1..], lo, hi);
      hide ClipLow, ClipHigh, Bounded;
      ClipBounded(frags[1..], lower, upper, lo, hi);
      BoundedPrepend(head, rest, lo, hi);
      BoundedPrepend(head, rest, lower, upper);
      assert [] + rest == rest;
    }
  }

  lemma {:induction false} ClipTidy(frags: seq<Fragment>, lower: Option<Key>, upper: Option<Key>)
    requires Tidy(frags)
    ensures Tidy(ClipFragments(frags, lower, upper))
  {
    if frags == [] {
    } else {
      ClipTidy(frags[1..], lower, upper);
      var f := Fragment(ClipLow(frags[0].start, lower), ClipHigh(frags[0].end, upper), frags[0].seqs);
      if f.start < f.end {
        ClipBounded(frags[1..], lower, upper, Some(frags[0].end), None);
        TidyPrepend(f, ClipFragments(frags[1..], lower, upper));
      }
    }
  }

  /** Clipping keeps exactly the coverage of the keys in the interval. */
  lemma {:induction false} ClipKeepsCovers(frags: seq<Fragment>, lower: Option<Key>, upper: Option<Key>, k: Key)
    ensures CoversOf(ClipFragments(frags, lower, upper), k) ==
            if InBounds(k, lower, upper) then CoversOf(frags, k) else {}
  {
    if frags == [] {
    } else {
      ClipKeepsCovers(frags[1..], lower, upper, k);
      var a, b := ClipLow(frags[0].start, lower), ClipHigh(frags[0].end, upper);
      CoversConcat(if a >= b then [] else [Fragment(a, b, frags[0].seqs)], ClipFragments(frags[1..], lower, upper), k);
    }
  }

  lemma {:induction false} RetainedBounded(frags: seq<Fragment>, oldest: nat, droppable: bool, lo: Option<Key>,
                                           hi: Option<Key>)
    requires Bounded(frags, lo, hi)
    ensures Bounded(RetainedFragments(frags, oldest, droppable), lo, hi)
  {
    if frags == [] {
    } else {
      RetainedBounded(frags[1..], oldest, droppable, lo, hi);
    }
  }

  lemma {:induction false} RetainedTidy(frags: seq<Fragment>, oldest: nat, droppable: bool)
    requires Tidy(frags)
    ensures Tidy(RetainedFragments(frags, oldest, droppable))
  {
    if frags == [] {
    } else {
      RetainedTidy(frags[1..], oldest, droppable);
      var f := frags[0].(seqs := RetainedSeqs(frags[0].seqs, oldest, droppable));
      if f.seqs != [] {
        RetainedBounded(frags[1..], oldest, droppable, Some(frags[0].end), None);
        TidyPrepend(f, RetainedFragments(frags[1..], oldest, droppable));
      }
    }
  }

  lemma {:induction false} RetainedHead(frags: seq<Fragment>, oldest: nat, droppable: bool, k: Key)
    requires frags != []
    ensures CoversOf(RetainedFragments(frags, oldest, droppable), k)
         == (if frags[0].start <= k < frags[0].end then Elements(RetainedSeqs(frags[0].seqs, oldest, droppable))
             else {})
            + CoversOf(RetainedFragments(frags[1..], oldest, droppable), k)
  {
    var head := frags[0].(seqs := RetainedSeqs(frags[0].seqs, oldest, droppable));
    CoversConcat(if head.seqs == [] then [] else [head], RetainedFragments(frags[1..], oldest, droppable), k);
  }

  /** What stays of one key's coverage. */
  lemma {:induction false} RetainedKeepsCovers(frags: seq<Fragment>, oldest: nat, droppable: bool, k: Key, x: nat)
    requires Tidy(frags)
    ensures x in CoversOf(RetainedFragments(frags, oldest, droppable), k) <==>
            x in CoversOf(frags, k) && (x > oldest || (!droppable && NewestAtMost(Some(x), CoversOf(frags, k), oldest)))
    decreases |frags|
  {
    if frags == [] {
    } else {
      hide RetainedFragments, RetainedSeqs, NewestAtMost;
      var f := frags[0];
      RetainedHead(frags, oldest, droppable, k);
      RetainedKeepsCovers(frags[1..], oldest, droppable, k, x);
      if f.start <= k < f.end {
        CoversOutside(frags[1..], k);
        assert CoversOf(frags, k) == Elements(f.seqs);
        RetainedMeaning(f.seqs, oldest, droppable, x);
      } else {
        assert CoversOf(frags, k) == CoversOf(frags[1..], k);
      }
    }
  }
}
