/**
 What a config blob means, on every byte string: it decodes exactly when its bytes spell
 entries with rising tags whose known ones all read, and then to what those entries say.
 */
module BlobExact {
  import opened Varint
  import opened ConfigBlob

  type Bytes = seq<Semantics.Byte>

  /** The bytes of one entry, its tag and length in any spelling. */
  ghost predicate EntrySpelled(w: Bytes, e: Entry)
  {
    exists x: nat, y: nat :: EntryAt(w, e, x, y)
  }

  predicate EntryAt(w: Bytes, e: Entry, x: nat, y: nat)
  {
    x <= y <= |w| && Spells(w[..x], e.tag) && Spells(w[x..y], |e.value|) && w[y..] == e.value
  }

  ghost predicate EntriesSpelled(p: Bytes, es: seq<Entry>)
    decreases |es|
  {
    if es == [] then p == []
    else exists i: nat :: i <= |p| && EntrySpelled(p[..i], es[0]) && EntriesSpelled(p[i..], es[1..])
  }

  lemma CutSpelled(p: Bytes) returns (n: nat)
    requires CutEntry(p).Cut?
    ensures 0 < n <= |p| && CutEntry(p).rest == p[n..] && EntrySpelled(p[..n], CutEntry(p).entry)
  {
    var t := Decoded(p).value;
    var q := p[t.used..];
    var m := Decoded(q).value;
    DecodedSpells(p);
    DecodedSpells(q);
    n := t.used + m.used + m.value;
    assert q[m.used..][m.value..] == p[n..];
    CutPieces(p, t.used, m.used, m.value);
    assert EntryAt(p[..n], CutEntry(p).entry, t.used, t.used + m.used);
  }

  lemma CutPieces(p: Bytes, x: nat, u: nat, v: nat)
    requires x + u + v <= |p|
    ensures var w := p[..x + u + v];
            w[..x] == p[..x] && w[x..x + u] == p[x..][..u] && w[x + u..] == p[x..][u..][..v]
  {
  }

  lemma SpelledCut(w: Bytes, e: Entry, rest: Bytes)
    requires EntrySpelled(w, e)
    ensures CutEntry(w + rest) == Cut(e, rest) && w != []
  {
    hide Decoded;
    var x: nat, y: nat :| EntryAt(w, e, x, y);
    var p := w + rest;
    var q := w[x..y] + (e.value + rest);
    assert w == w[..x] + w[x..y] + w[y..];
    assert p == w[..x] + q;
    SpellsBefore(w[..x], e.tag, q);
    SpellsBefore(w[x..y], |e.value|, e.value + rest);
    assert p[x..] == q && q[y - x..] == e.value + rest;
    assert (e.value + rest)[..|e.value|] == e.value && (e.value + rest)[|e.value|..] == rest;
    OneByte(w[..x], e.tag);
  }

  lemma OneByte(w: Bytes, n: nat)
    requires Spells(w, n)
    ensures w != []
  {
  }

  /** Ascending tags, all above `last`. */
  predicate Above(last: nat, es: seq<Entry>)
  {
    Ascending(es) && (es != [] ==> last < es[0].tag)
  }

  lemma EntrySmall(w: Bytes, e: Entry)
    requires EntrySpelled(w, e)
    ensures e.tag < U64_LIMIT && |e.value| < U64_LIMIT
  {
  }

  lemma AboveHead(last: nat, e: Entry, es: seq<Entry>)
    requires Above(e.tag, es) && last < e.tag < U64_LIMIT && |e.value| < U64_LIMIT
    ensures Above(last, [e] + es)
  {
  }

  /** Decoding bytes is applying the entries they spell. */
  lemma {:induction false} DecodeSpelled<V>(s: Schema<V>, cfg: Config<V>, last: nat, p: Bytes, es: seq<Entry>)
    requires EntriesSpelled(p, es)
    ensures DecodeFrom(s, cfg, last, p) == ApplyAll(s, cfg, last, es)
    decreases |es|
  {
    hide CutEntry, Apply, EntrySpelled;
    if es == [] {
    } else {
      var i: nat :| i <= |p| && EntrySpelled(p[..i], es[0]) && EntriesSpelled(p[i..], es[1..]);
      SpelledCut(p[..i], es[0], p[i..]);
      assert p[..i] + p[i..] == p;
      var next := Apply(s, cfg, es[0]);
      if next.Good? { DecodeSpelled(s, next.cfg, es[0].tag, p[i..], es[1..]); }
    }
  }

  lemma {:induction false} SpelledHead(p: Bytes, i: nat, e: Entry, es: seq<Entry>)
    requires i <= |p| && EntrySpelled(p[..i], e) && EntriesSpelled(p[i..], es)
    ensures EntriesSpelled(p, [e] + es)
  {
    assert ([e] + es)[1..] == es;
  }

  lemma ApplyGood<V>(s: Schema<V>, cfg: Config<V>, e: Entry)
    ensures Apply(s, cfg, e).Good? <==> (e.tag in s.known ==> s.get(e.tag, e.value).Fetched?)
    ensures Apply(s, cfg, e).UnsupportedFormat? <==> e.tag in s.known && s.get(e.tag, e.value).Unimplemented?
  {
  }

  /** Bytes that decode spell entries that apply. */
  lemma {:induction false} GoodSpells<V>(s: Schema<V>, cfg: Config<V>, last: nat, p: Bytes) returns (es: seq<Entry>)
    requires DecodeFrom(s, cfg, last, p).Good?
    ensures EntriesSpelled(p, es) && Above(last, es) && Readable(s, es)
    decreases |p|
  {
    hide CutEntry, Apply, EntrySpelled, EntriesSpelled, Ascending;
    if p == [] {
      es := [];
      NoEntries();
    } else {
      var i := CutSpelled(p);
      var e := CutEntry(p).entry;
      ApplyGood(s, cfg, e);
      es := GoodSpells(s, Apply(s, cfg, e).cfg, e.tag, p[i..]);
      EntrySmall(p[..i], e);
      AboveHead(last, e, es);
      SpelledHead(p, i, e, es);
      es := [e] + es;
    }
  }

  lemma NoEntries()
    ensures EntriesSpelled([], []) && Above(0, []) && Ascending([])
  {
  }

  ghost predicate Headed(blob: Bytes)
  {
    |blob| >= |HEADER| && blob[..|HEADER|] == HEADER
  }

  /** What the entries of a blob leave: the initial fields with each known entry read over
      them, and the unknown entries in order. */
  ghost predicate Left<V>(s: Schema<V>, es: seq<Entry>, cfg: Config<V>)
  {
    cfg.unknown == Unknown(s, es) && forall t: nat :: FieldAfter(s, Initial(s), es, cfg, t)
  }

  lemma LeftUnique<V>(s: Schema<V>, es: seq<Entry>, a: Config<V>, b: Config<V>)
    requires Left(s, es, a) && Left(s, es, b)
    ensures a == b
  {
    forall t: nat
      ensures t in a.fields <==> t in b.fields
      ensures t in a.fields ==> a.fields[t] == b.fields[t]
    {
      assert FieldAfter(s, Initial(s), es, a, t) && FieldAfter(s, Initial(s), es, b, t);
      FieldKnown(s, es, a, t);
      FieldKnown(s, es, b, t);
      if e :| e in es && e.tag == t {
        assert t in s.known ==> Fetched(a.fields[t]) == s.get(t, e.value) == Fetched(b.fields[t]);
      }
    }
  }

  lemma FieldKnown<V>(s: Schema<V>, es: seq<Entry>, cfg: Config<V>, t: nat)
    requires FieldAfter(s, Initial(s), es, cfg, t)
    ensures t in cfg.fields <==> t in s.known
  {
  }

  /** The blob spells these ascending entries, the known ones all read, and they leave `cfg`. */
  ghost predicate Holds<V>(s: Schema<V>, blob: Bytes, es: seq<Entry>, cfg: Config<V>)
  {
    && Headed(blob) && EntriesSpelled(blob[|HEADER|..], es)
    && Ascending(es) && Readable(s, es) && Left(s, es, cfg)
  }

  /** A blob decodes to a config exactly when, after the header, it spells ascending entries
      whose known ones all read, and the config is what they leave. */
  lemma DecodeExact<V>(s: Schema<V>, blob: Bytes, cfg: Config<V>)
    ensures Meaning(s, blob) == Good(cfg) <==> exists es: seq<Entry> :: Holds(s, blob, es, cfg)
  {
    hide DecodeFrom, EntriesSpelled, Readable, Ascending, FieldAfter, Unknown;
    HeadedIff(blob);
    if Meaning(s, blob) == Good(cfg) {
      var es := GoodSpells(s, Initial(s), 0, blob[|HEADER|..]);
      DecodesTo(s, blob[|HEADER|..], es);
      assert Holds(s, blob, es, cfg);
    }
    if es: seq<Entry> :| Holds(s, blob, es, cfg) {
      DecodesTo(s, blob[|HEADER|..], es);
      LeftUnique(s, es, DecodeFrom(s, Initial(s), 0, blob[|HEADER|..]).cfg, cfg);
    }
  }

  lemma HeadedIff(blob: Bytes)
    ensures Headed(blob) <==> |blob| >= |HEADER| && blob[..|MAGIC|] == MAGIC && blob[|MAGIC|..|HEADER|] == VERSION
  {
    if |blob| >= |HEADER| { assert blob[..|HEADER|] == blob[..|MAGIC|] + blob[|MAGIC|..|HEADER|]; }
  }

  lemma {:induction false} DecodesTo<V>(s: Schema<V>, p: Bytes, es: seq<Entry>)
    requires EntriesSpelled(p, es) && Ascending(es) && Readable(s, es)
    ensures DecodeFrom(s, Initial(s), 0, p).Good? && Left(s, es, DecodeFrom(s, Initial(s), 0, p).cfg)
  {
    hide EntriesSpelled, Readable, FieldAfter, Unknown, ApplyAll, DecodeFrom;
    DecodeSpelled(s, Initial(s), 0, p, es);
    AppliedAll(s, Initial(s), 0, es);
    assert [] + Unknown(s, es) == Unknown(s, es);
  }

  // ---- refusals -------------------------------------------------------------------------------------

  /** Well-formed entries, then one whose known tag names something not implemented. */
  ghost predicate UnknownValue<V>(s: Schema<V>, last: nat, p: Bytes, es: seq<Entry>, e: Entry, i: nat)
  {
    && i <= |p| && EntriesSpelled(p[..i], es + [e]) && Above(last, es + [e]) && Readable(s, es)
    && e.tag in s.known && s.get(e.tag, e.value).Unimplemented?
  }

  lemma {:induction false} UnsupportedSpells<V>(s: Schema<V>, cfg: Config<V>, last: nat, p: Bytes)
      returns (es: seq<Entry>, e: Entry, i: nat)
    requires DecodeFrom(s, cfg, last, p).UnsupportedFormat?
    ensures UnknownValue(s, last, p, es, e, i)
    decreases |p|
  {
    hide CutEntry, Apply, EntrySpelled, EntriesSpelled, Ascending;
    var n := CutSpelled(p);
    var first := CutEntry(p).entry;
    ApplyGood(s, cfg, first);
    EntrySmall(p[..n], first);
    if Apply(s, cfg, first).Good? {
      es, e, i := UnsupportedSpells(s, Apply(s, cfg, first).cfg, first.tag, p[n..]);
      AboveHead(last, first, es + [e]);
      assert p[..n + i][..n] == p[..n] && p[..n + i][n..] == p[n..][..i];
      SpelledHead(p[..n + i], n, first, es + [e]);
      assert [first] + (es + [e]) == [first] + es + [e];
      es, i := [first] + es, n + i;
    } else {
      es, e, i := [], first, n;
      NoEntries();
      assert Above(first.tag, []);
      AboveHead(last, first, []);
      assert p[..n][..n] == p[..n] && p[..n][n..] == [];
      SpelledHead(p[..n], n, first, []);
      assert [first] + [] == [] + [first];
    }
  }

  lemma {:induction false} SpellsUnsupported<V>(s: Schema<V>, cfg: Config<V>, last: nat, p: Bytes, es: seq<Entry>,
                                                e: Entry, i: nat)
    requires UnknownValue(s, last, p, es, e, i)
    ensures DecodeFrom(s, cfg, last, p).UnsupportedFormat?
    decreases |es|
  {
    hide CutEntry, Apply, EntrySpelled;
    var all := es + [e];
    var n: nat :| n <= |p[..i]| && EntrySpelled(p[..i][..n], all[0]) && EntriesSpelled(p[..i][n..], all[1..]);
    assert p[..i][..n] == p[..n] && p[..n] + p[n..] == p && p[..i][n..] == p[n..][..i - n];
    SpelledCut(p[..n], all[0], p[n..]);
    ApplyGood(s, cfg, all[0]);
    if es != [] {
      assert all[1..] == es[1..] + [e];
      var next := Apply(s, cfg, es[0]).cfg;
      assert UnknownValue(s, es[0].tag, p[n..], es[1..], e, i - n);
      SpellsUnsupported(s, next, es[0].tag, p[n..], es[1..], e, i - n);
    }
  }

  /** A blob is unsupported exactly when its version is another, or the first entry that does
      not apply is a known tag naming something not implemented; any other blob that does not
      decode is corrupt. */
  lemma UnsupportedExact<V>(s: Schema<V>, blob: Bytes)
    ensures Meaning(s, blob).UnsupportedFormat? <==>
            && |blob| >= |HEADER| && blob[..|MAGIC|] == MAGIC
            && (!Headed(blob)
                || exists es: seq<Entry>, e: Entry, i: nat :: UnknownValue(s, 0, blob[|HEADER|..], es, e, i))
  {
    hide DecodeFrom, UnknownValue;
    HeadedIff(blob);
    if Headed(blob) {
      var p := blob[|HEADER|..];
      if DecodeFrom(s, Initial(s), 0, p).UnsupportedFormat? {
        var es, e, i := UnsupportedSpells(s, Initial(s), 0, p);
      }
      if es: seq<Entry>, e: Entry, i: nat :| UnknownValue(s, 0, p, es, e, i) {
        SpellsUnsupported(s, Initial(s), 0, p, es, e, i);
      }
    }
  }
}
