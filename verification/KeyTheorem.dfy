/**
 The compaction theorem for one key: for every read sequence at or above `oldest`
 and every clock at or after the job's, the rewritten versions and retained range
 deletes over any older data read as the inputs did -- exactly when no put that had
 expired before the job, and is newer than `oldest`, hides something still readable.
 */
module KeyTheorem {
  import opened Semantics
  import opened Rewrite
  import opened Preservation

  /** The covering sequences `retained_fragment_seqs` keeps. */
  function KeptCovers(job: Job, k: Key, covers: set<nat>): set<nat>
  {
    set c | c in covers && (c > job.oldest || (!job.bottom && job.mask(k) == Some(c)))
  }

  /** The job's versions `vs` and range deletes `covers` of `k`, over older data `below`. */
  ghost predicate KeyRun(job: Job, k: Key, s: LoopState, vs: seq<Version>, covers: set<nat>, below: History, bound: int,
                         out: seq<Version>)
  {
    && OneKey(vs, k) && NewestAtMost(job.mask(k), covers, job.oldest)
    && PointsOf(vs, k).Keys !! covers
    && s.pending == None && s.retained.lastKey != Some(k)
    && Run(job, s, vs) == Some(out)
    && -1 <= bound
    && (forall n :: n in below ==> n <= bound)
    && (forall n :: n in PointsOf(vs, k) || n in covers ==> n > bound)
    && (job.bottom ==> below == map[])
  }

  function Before(k: Key, vs: seq<Version>, covers: set<nat>, below: History): History
  {
    below + Overlay(PointsOf(vs, k), covers)
  }

  function After(job: Job, k: Key, out: seq<Version>, covers: set<nat>, below: History): History
  {
    below + Overlay(PointsOf(out, k), KeptCovers(job, k, covers))
  }

  /** The bottom drop of an expired put, whatever its sequence. */
  predicate DropsExpired(job: Job, e: Entry)
  {
    job.bottom && e.Put? && Expired(e.ttl, job.now)
  }

  // ---- versions above `oldest` -----------------------------------------------------

  function KeptRecent(job: Job, vs: seq<Version>): seq<Version>
  {
    if vs == [] then []
    else (if DropsExpired(job, vs[0].entry) then [] else [vs[0]]) + KeptRecent(job, vs[1..])
  }

  /** A loop state with nothing decided about `k` yet. */
  ghost predicate Undecided(s: LoopState, k: Key)
  {
    s.pending == None && (s.retained.lastKey == Some(k) ==> !s.retained.emitted)
  }

  lemma RecentStep(job: Job, k: Key, s: LoopState, v: Version)
    requires Undecided(s, k) && v.key == k && !Masked(job, v) && v.seqno > job.oldest
    ensures Step(job, s, v).Stepped?
    ensures Step(job, s, v).out == if DropsExpired(job, v.entry) then [] else [v]
    ensures Undecided(Step(job, s, v).next, k)
  {
  }

  lemma RecentHead(job: Job, k: Key, s: LoopState, vs: seq<Version>, out: seq<Version>)
    returns (next: LoopState, rest: seq<Version>)
    requires vs != [] && Undecided(s, k) && vs[0].key == k && !Masked(job, vs[0]) && vs[0].seqno > job.oldest
    requires Run(job, s, vs) == Some(out)
    ensures Undecided(next, k) && Run(job, next, vs[1..]) == Some(rest)
    ensures out == (if DropsExpired(job, vs[0].entry) then [] else [vs[0]]) + rest
  {
    RecentStep(job, k, s, vs[0]);
    next := Step(job, s, vs[0]).next;
    rest := Run(job, next, vs[1..]).value;
  }

  /** How many versions of a newest-first list are above `oldest`. */
  function RecentCount(job: Job, vs: seq<Version>): (i: nat)
    ensures i <= |vs|
    ensures forall j :: 0 <= j < i ==> vs[j].seqno > job.oldest
    ensures i < |vs| ==> vs[i].seqno <= job.oldest
  {
    if vs == [] || vs[0].seqno <= job.oldest then 0 else 1 + RecentCount(job, vs[1..])
  }

  /** Versions above `oldest` are written as they are, but for expired puts at the bottom. */
  lemma {:induction false} RecentRun(job: Job, k: Key, s: LoopState, vs: seq<Version>, out: seq<Version>)
    returns (next: LoopState, tail: seq<Version>)
    requires OneKey(vs, k) && Undecided(s, k)
    requires job.mask(k).Some? ==> job.mask(k).value <= job.oldest
    requires Run(job, s, vs) == Some(out)
    ensures Undecided(next, k) && Run(job, next, vs[RecentCount(job, vs)..]) == Some(tail)
    ensures out == KeptRecent(job, vs[..RecentCount(job, vs)]) + tail
    decreases |vs|
  {
    hide Run;
    if vs == [] || vs[0].seqno <= job.oldest {
      next, tail := s, out;
      assert vs[0..] == vs && KeptRecent(job, vs[..0]) + tail == tail;
    } else {
      var after, rest := RecentHead(job, k, s, vs, out);
      next, tail := RecentRun(job, k, after, vs[1..], rest);
      var i := RecentCount(job, vs[1..]);
      assert vs[i + 1..] == vs[1..][i..];
      var head := if DropsExpired(job, vs[0].entry) then [] else [vs[0]];
      assert KeptRecent(job, vs[..i + 1]) == head + KeptRecent(job, vs[1..][..i]) by {
        assert vs[..i + 1][1..] == vs[1..][..i];
      }
      assert head + KeptRecent(job, vs[1..][..i]) + tail == head + (KeptRecent(job, vs[1..][..i]) + tail);
    }
  }

  lemma {:induction false} RecentPoints(job: Job, k: Key, vs: seq<Version>, n: nat)
    requires OneKey(vs, k)
    ensures n in PointsOf(KeptRecent(job, vs), k) <==> n in PointsOf(vs, k) && !DropsExpired(job, PointsOf(vs, k)[n])
    ensures n in PointsOf(KeptRecent(job, vs), k) ==> PointsOf(KeptRecent(job, vs), k)[n] == PointsOf(vs, k)[n]
  {
    if vs == [] {
    } else {
      RecentPoints(job, k, vs[1..], n);
      PointsConcat(if DropsExpired(job, vs[0].entry) then [] else [vs[0]], KeptRecent(job, vs[1..]), k);
      if n == vs[0].seqno && n in PointsOf(vs[1..], k) {
        OneKeyBelow(vs[1..], k, n);
      }
    }
  }

  // ---- versions at or below `oldest` -------------------------------------------------

  lemma {:induction false} UnmaskedPoints(job: Job, k: Key, vs: seq<Version>, n: nat)
    requires OneKey(vs, k)
    ensures n in PointsOf(Unmasked(job, vs), k) <==>
              n in PointsOf(vs, k) && (job.mask(k).Some? ==> n >= job.mask(k).value)
    ensures n in PointsOf(Unmasked(job, vs), k) ==> PointsOf(Unmasked(job, vs), k)[n] == PointsOf(vs, k)[n]
  {
    if vs == [] {
    } else {
      if Masked(job, vs[0]) {
        if n in PointsOf(vs, k) { OneKeyBelow(vs, k, n); }
      } else {
        UnmaskedPoints(job, k, vs[1..], n);
        assert Unmasked(job, vs)[1..] == Unmasked(job, vs[1..]);
      }
    }
  }

  /** A key's run, cut at `oldest`: what is written for the newer part and for the rest. */
  lemma SplitRun(job: Job, k: Key, s: LoopState, vs: seq<Version>, covers: set<nat>, below: History, bound: int,
                 out: seq<Version>)
    returns (i: nat, next: LoopState, tail: seq<Version>)
    requires KeyRun(job, k, s, vs, covers, below, bound, out)
    ensures CutAt(job, k, vs, i)
    ensures Undecided(next, k) && Run(job, next, vs[i..]) == Some(tail)
    ensures out == KeptRecent(job, vs[..i]) + tail
    ensures OneKey(tail, k)
    ensures forall n :: n in PointsOf(tail, k) ==> n in PointsOf(Unmasked(job, vs[i..]), k)
  {
    next, tail := RecentRun(job, k, s, vs, out);
    i := RecentCount(job, vs);
    RunShape(job, k, next, vs[i..], tail);
    forall n | n in PointsOf(tail, k) ensures n in PointsOf(Unmasked(job, vs[i..]), k) {
      RunSource(job, k, next, vs[i..], tail, n);
    }
  }

  /** Above `oldest` the job only drops expired puts, and only at the bottom. */
  lemma {:induction false} AboveOldest(job: Job, k: Key, s: LoopState, vs: seq<Version>, covers: set<nat>,
                                       below: History, bound: int, out: seq<Version>, n: nat)
    requires KeyRun(job, k, s, vs, covers, below, bound, out)
    requires n > job.oldest
    ensures n in PointsOf(out, k) <==> n in PointsOf(vs, k) && !DropsExpired(job, PointsOf(vs, k)[n])
    ensures n in PointsOf(out, k) ==> PointsOf(out, k)[n] == PointsOf(vs, k)[n]
  {
    hide Run;
    var i, next, tail := SplitRun(job, k, s, vs, covers, below, bound, out);
    PointsConcat(vs[..i], vs[i..], k);
    assert vs[..i] + vs[i..] == vs;
    PointsConcat(KeptRecent(job, vs[..i]), tail, k);
    RecentPoints(job, k, vs[..i], n);
    UnmaskedPoints(job, k, vs[i..], n);
    if n in PointsOf(vs[i..], k) { var j := PointsWitness(vs[i..], k, n); }
  }

  /** Where the settled part of a walk hands over to older data. */
  function Handover(job: Job, k: Key, bound: int): int
  {
    if job.mask(k).Some? then job.mask(k).value else if bound < job.oldest then bound else job.oldest
  }

  /** The position `i` cuts `vs` at `oldest`. */
  ghost predicate CutAt(job: Job, k: Key, vs: seq<Version>, i: nat)
  {
    && i <= |vs| && OneKey(vs, k)
    && (forall j :: 0 <= j < i ==> vs[j].seqno > job.oldest)
    && (forall j :: i <= j < |vs| ==> vs[j].seqno <= job.oldest)
  }

  lemma {:induction false} CutPoints(job: Job, k: Key, vs: seq<Version>, i: nat, n: nat)
    requires CutAt(job, k, vs, i) && n <= job.oldest
    ensures n !in PointsOf(KeptRecent(job, vs[..i]), k)
    ensures var u := PointsOf(Unmasked(job, vs[i..]), k);
            && (n in u <==> n in PointsOf(vs, k) && (job.mask(k).Some? ==> n >= job.mask(k).value))
            && (n in u ==> u[n] == PointsOf(vs, k)[n])
  {
    assert vs[..i] + vs[i..] == vs;
    PointsConcat(vs[..i], vs[i..], k);
    RecentPoints(job, k, vs[..i], n);
    UnmaskedPoints(job, k, vs[i..], n);
    if n in PointsOf(vs[..i], k) { var j := PointsWitness(vs[..i], k, n); }
  }

  /** Unmasked settled versions lie between the handover and `oldest`. */
  lemma {:induction false} CutRange(job: Job, k: Key, s: LoopState, vs: seq<Version>, covers: set<nat>, below: History,
                                    bound: int, out: seq<Version>, i: nat, n: nat)
    requires KeyRun(job, k, s, vs, covers, below, bound, out) && CutAt(job, k, vs, i)
    requires n in PointsOf(Unmasked(job, vs[i..]), k)
    ensures Handover(job, k, bound) < n <= job.oldest
  {
    UnmaskedPoints(job, k, vs[i..], n);
    var j := PointsWitness(vs[i..], k, n);
    CutPoints(job, k, vs, i, n);
  }

  lemma {:induction false} AtOldestBefore(job: Job, k: Key, s: LoopState, vs: seq<Version>, covers: set<nat>,
                                          below: History, bound: int, out: seq<Version>, i: nat)
    requires KeyRun(job, k, s, vs, covers, below, bound, out) && CutAt(job, k, vs, i)
    ensures Walk(Before(k, vs, covers, below), job.oldest)
         == Stack(Unmasked(job, vs[i..]), Floor(job.mask(k), Walk(below, Handover(job, k, bound))))
  {
    var h, lo, u := Before(k, vs, covers, below), Handover(job, k, bound), Unmasked(job, vs[i..]);
    forall n: nat | lo < n <= job.oldest
      ensures (n in h <==> n in PointsOf(u, k)) && (n in h ==> h[n] == PointsOf(u, k)[n])
    {
      CutPoints(job, k, vs, i, n);
    }
    forall j | 0 <= j < |u| ensures lo < u[j].seqno <= job.oldest {
      PointsMember(u, k, j);
      CutRange(job, k, s, vs, covers, below, bound, out, i, u[j].seqno);
    }
    WalkStack(h, u, k, lo, job.oldest);
    if job.mask(k).None? { WalkAgree(h, below, lo); }
  }

  lemma {:induction false} AtOldestAfter(job: Job, k: Key, s: LoopState, vs: seq<Version>, covers: set<nat>,
                                         below: History, bound: int, out: seq<Version>, i: nat, tail: seq<Version>)
    requires KeyRun(job, k, s, vs, covers, below, bound, out) && CutAt(job, k, vs, i)
    requires out == KeptRecent(job, vs[..i]) + tail && OneKey(tail, k)
    requires forall n :: n in PointsOf(tail, k) ==> n in PointsOf(Unmasked(job, vs[i..]), k)
    ensures Walk(After(job, k, out, covers, below), job.oldest)
         == Stack(tail, Floor(if job.bottom then None else job.mask(k), Walk(below, Handover(job, k, bound))))
  {
    var h := After(job, k, out, covers, below);
    var lo := if job.bottom then -1 else Handover(job, k, bound);
    PointsConcat(KeptRecent(job, vs[..i]), tail, k);
    forall n: nat | lo < n <= job.oldest
      ensures (n in h <==> n in PointsOf(tail, k)) && (n in h ==> h[n] == PointsOf(tail, k)[n])
    {
      CutPoints(job, k, vs, i, n);
    }
    forall j | 0 <= j < |tail| ensures lo < tail[j].seqno <= job.oldest {
      PointsMember(tail, k, j);
      CutRange(job, k, s, vs, covers, below, bound, out, i, tail[j].seqno);
    }
    WalkStack(h, tail, k, lo, job.oldest);
    if job.bottom {
      WalkSkip(below, -1, Handover(job, k, bound));
    } else if job.mask(k).None? {
      AfterBelow(job, k, s, vs, covers, below, bound, out, i, tail);
    }
  }

  lemma {:induction false} AfterBelow(job: Job, k: Key, s: LoopState, vs: seq<Version>, covers: set<nat>,
                                      below: History, bound: int, out: seq<Version>, i: nat, tail: seq<Version>)
    requires KeyRun(job, k, s, vs, covers, below, bound, out) && CutAt(job, k, vs, i)
    requires out == KeptRecent(job, vs[..i]) + tail && job.mask(k).None?
    requires forall n :: n in PointsOf(tail, k) ==> n in PointsOf(Unmasked(job, vs[i..]), k)
    ensures Walk(After(job, k, out, covers, below), Handover(job, k, bound)) == Walk(below, Handover(job, k, bound))
  {
    var h, lo := After(job, k, out, covers, below), Handover(job, k, bound);
    PointsConcat(KeptRecent(job, vs[..i]), tail, k);
    forall n: nat | n <= lo ensures n !in PointsOf(out, k) {
      CutPoints(job, k, vs, i, n);
      if n in PointsOf(tail, k) { CutRange(job, k, s, vs, covers, below, bound, out, i, n); }
    }
    WalkAgree(h, below, lo);
  }

  /** The floor every snapshot shares: reads at `oldest` agree. */
  lemma AtOldest(job: Job, k: Key, s: LoopState, vs: seq<Version>, covers: set<nat>, below: History, bound: int,
                 out: seq<Version>, r: Reader)
    requires KeyRun(job, k, s, vs, covers, below, bound, out) && ReaderOf(r, job, k)
    ensures Equiv(r, Walk(Before(k, vs, covers, below), job.oldest),
              Walk(After(job, k, out, covers, below), job.oldest))
  {
    var i, next, tail := SplitRun(job, k, s, vs, covers, below, bound, out);
    var under := Walk(below, Handover(job, k, bound));
    if job.bottom { WalkSkip(below, -1, Handover(job, k, bound)); }
    SettledKeeps(job, k, next, vs[i..], under, r, tail);
    AtOldestBefore(job, k, s, vs, covers, below, bound, out, i);
    AtOldestAfter(job, k, s, vs, covers, below, bound, out, i, tail);
    var b := Stack(Unmasked(job, vs[i..]), Floor(job.mask(k), under));
    assert Push([], b) == b;
  }

  // ---- every read at or above `oldest` ----------------------------------------------

  /** The newest entry at or below `n`. */
  function Newest(h: History, n: int): Option<Entry>
    decreases n + 1
  {
    if n < 0 then None else if n in h then Some(h[n]) else Newest(h, n - 1)
  }

  /** An entry a reader gets an answer from: an operand, or a put that has not expired. */
  predicate Readable(e: Option<Entry>, now: int)
  {
    e.Some? && (e.value.Operand? || (e.value.Put? && !Expired(e.value.ttl, now)))
  }

  lemma {:induction false} WalkNewest(r: Reader, h: History, n: int)
    ensures Resolve(r, Walk(h, n)) != NotFound <==> Readable(Newest(h, n), r.now)
    decreases n + 1
  {
    if n >= 0 && n !in h { WalkNewest(r, h, n - 1); }
  }

  lemma {:induction false} NewestSkip(h: History, lo: int, hi: int)
    requires -1 <= lo <= hi
    requires forall n: nat :: lo < n <= hi ==> n !in h
    ensures Newest(h, hi) == Newest(h, lo)
    decreases hi - lo
  {
    if lo < hi { NewestSkip(h, lo, hi - 1); }
  }

  /** A put newer than `oldest` that the job drops as expired, over something readable. */
  predicate Exposes(job: Job, k: Key, vs: seq<Version>, covers: set<nat>, q: nat)
  {
    && q > job.oldest && q in PointsOf(vs, k)
    && DropsExpired(job, PointsOf(vs, k)[q])
    && Readable(Newest(Overlay(PointsOf(vs, k), covers), q - 1), job.now)
  }

  ghost predicate Clean(job: Job, k: Key, vs: seq<Version>, covers: set<nat>)
  {
    forall q: nat :: !Exposes(job, k, vs, covers, q)
  }

  /** A chain that no reader from `now` on can read. */
  lemma {:induction false} UnreadableStays(h: History, n: int, now: int)
    requires !Readable(Newest(h, n), now)
    ensures Walk(h, n).operands == []
    ensures forall later :: later >= now ==> Existing(Walk(h, n).base, later) == None
    decreases n + 1
  {
    if n >= 0 && n !in h { UnreadableStays(h, n - 1, now); }
  }

  /** `m` holds the same in both, or only an expired put over nothing readable is gone. */
  ghost predicate HarmlessAt(b: History, a: History, now: int, m: nat)
  {
    || ((m in a <==> m in b) && (m in b ==> a[m] == b[m]))
    || (m !in a && m in b && b[m].Put? && Expired(b[m].ttl, now) && !Readable(Newest(b, m - 1), now))
  }

  lemma {:induction false} HarmlessAbove(r: Reader, b: History, a: History, oldest: nat, now: int, n: nat)
    requires r.now >= now && oldest <= n
    requires Equiv(r, Walk(b, oldest), Walk(a, oldest))
    requires forall m: nat :: oldest < m <= n ==> HarmlessAt(b, a, now, m)
    ensures Equiv(r, Walk(b, n), Walk(a, n))
    decreases n
  {
    if n > oldest {
      HarmlessAbove(r, b, a, oldest, now, n - 1);
      assert HarmlessAt(b, a, now, n);
      if n in a {
        EquivAbove(r, b[n], Walk(b, n - 1), Walk(a, n - 1));
      } else if n in b {
        UnreadableStays(b, n - 1, now);
        EquivBases(r, [], BaseOf(b[n]), Walk(b, n - 1).base);
      }
    }
  }

  /** A clean key reads the same after the job, under any newer operands. */
  lemma {:induction false} KeyPreserved(job: Job, k: Key, s: LoopState, vs: seq<Version>, covers: set<nat>,
                                        below: History, bound: int, out: seq<Version>, r: Reader, n: nat)
    requires KeyRun(job, k, s, vs, covers, below, bound, out) && ReaderOf(r, job, k)
    requires Clean(job, k, vs, covers)
    requires n >= job.oldest
    ensures Equiv(r, Walk(Before(k, vs, covers, below), n), Walk(After(job, k, out, covers, below), n))
  {
    hide NewestAtMost, PointsOf;
    var b, a := Before(k, vs, covers, below), After(job, k, out, covers, below);
    AtOldest(job, k, s, vs, covers, below, bound, out, r);
    forall m: nat | job.oldest < m <= n ensures HarmlessAt(b, a, job.now, m) {
      AboveOldest(job, k, s, vs, covers, below, bound, out, m);
      assert !Exposes(job, k, vs, covers, m);
      assert job.bottom ==> b == Overlay(PointsOf(vs, k), covers);
    }
    HarmlessAbove(r, b, a, job.oldest, job.now, n);
  }

  /** An unclean key reads wrongly at the dropped put's own sequence. */
  lemma KeyExposed(job: Job, k: Key, s: LoopState, vs: seq<Version>, covers: set<nat>, below: History, bound: int,
                   out: seq<Version>, q: nat)
    requires KeyRun(job, k, s, vs, covers, below, bound, out) && Associative(job.op)
    requires Exposes(job, k, vs, covers, q)
    ensures var r := Reader(job.op, k, job.now);
            Read(r, Before(k, vs, covers, below), q) == NotFound != Read(r, After(job, k, out, covers, below), q)
  {
    var r := Reader(job.op, k, job.now);
    var b, a := Before(k, vs, covers, below), After(job, k, out, covers, below);
    assert b == Overlay(PointsOf(vs, k), covers);
    AboveOldest(job, k, s, vs, covers, below, bound, out, q);
    assert q !in a && b[q].Put?;
    ExposedNewest(job, k, s, vs, covers, below, bound, out, q - 1, r);
  }

  lemma {:induction false} ExposedNewest(job: Job, k: Key, s: LoopState, vs: seq<Version>, covers: set<nat>,
                                         below: History, bound: int, out: seq<Version>, n: nat, r: Reader)
    requires KeyRun(job, k, s, vs, covers, below, bound, out) && ReaderOf(r, job, k) && r.now == job.now
    requires job.bottom && n >= job.oldest
    requires Readable(Newest(Before(k, vs, covers, below), n), job.now)
    ensures Resolve(r, Walk(After(job, k, out, covers, below), n)) != NotFound
    decreases n
  {
    var b, a := Before(k, vs, covers, below), After(job, k, out, covers, below);
    if n == job.oldest {
      AtOldest(job, k, s, vs, covers, below, bound, out, r);
      EquivResolves(r, Walk(b, n), Walk(a, n));
      WalkNewest(r, b, n);
    } else {
      AboveOldest(job, k, s, vs, covers, below, bound, out, n);
      if n in b {
        assert n !in covers && n in a;
        WalkNewest(r, a, n);
      } else {
        ExposedNewest(job, k, s, vs, covers, below, bound, out, n - 1, r);
      }
    }
  }

  /** The compaction theorem for one key, with its exact condition. */
  lemma KeyExact(job: Job, k: Key, s: LoopState, vs: seq<Version>, covers: set<nat>, below: History, bound: int,
                 out: seq<Version>)
    requires KeyRun(job, k, s, vs, covers, below, bound, out) && Associative(job.op)
    ensures Clean(job, k, vs, covers) <==>
            forall r: Reader, n: nat :: ReaderOf(r, job, k) && n >= job.oldest ==>
              Read(r, Before(k, vs, covers, below), n) == Read(r, After(job, k, out, covers, below), n)
  {
    var b, a := Before(k, vs, covers, below), After(job, k, out, covers, below);
    if Clean(job, k, vs, covers) {
      forall r: Reader, n: nat | ReaderOf(r, job, k) && n >= job.oldest ensures Read(r, b, n) == Read(r, a, n) {
        KeyPreserved(job, k, s, vs, covers, below, bound, out, r, n);
        EquivResolves(r, Walk(b, n), Walk(a, n));
      }
    } else {
      var q: nat :| Exposes(job, k, vs, covers, q);
      KeyExposed(job, k, s, vs, covers, below, bound, out, q);
      var r := Reader(job.op, k, job.now);
      assert ReaderOf(r, job, k) && Read(r, b, q) != Read(r, a, q);
    }
  }
}
