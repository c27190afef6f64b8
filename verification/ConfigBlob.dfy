/**
 The column-family config blob: a header and tag-length-value entries in strictly
 ascending tag order, defaults elided, unknown tags carried through. The tag table is a
 parameter: each known tag has a default, a writer, a reader, and the value its reader
 gives back for what its writer wrote.
 */
module ConfigBlob {
  import opened Semantics
  import opened Varint

  datatype Entry = Entry(tag: nat, value: seq<Byte>)

  const MAGIC: seq<Byte> := [0x59, 0x4F, 0x4C, 0x4F, 0x44, 0x42, 0x43, 0x46]
  const VERSION: seq<Byte> := [1, 0, 0, 0]
  const HEADER: seq<Byte> := MAGIC + VERSION

  /** A known tag's reader: the value is malformed, names something not implemented, or reads. */
  datatype Fetch<V> = Garbled | Unimplemented | Fetched(value: V)

  datatype Schema<!V> = Schema(known: seq<nat>, initial: nat -> V, put: (nat, V) -> seq<Byte>,
                               get: (nat, seq<Byte>) -> Fetch<V>, norm: (nat, V) -> V)

  datatype Config<V> = Config(fields: map<nat, V>, unknown: seq<Entry>)

  // ---- entries ----------------------------------------------------------------------------------

  /** Tags are positive, below 2^64 and strictly ascending. */
  predicate Ascending(es: seq<Entry>)
  {
    && (forall i :: 0 <= i < |es| ==> 0 < es[i].tag < U64_LIMIT && |es[i].value| < U64_LIMIT)
    && (forall i, j :: 0 <= i < j < |es| ==> es[i].tag < es[j].tag)
  }

  function Serialize(es: seq<Entry>): seq<Byte>
  {
    if es == [] then [] else Leb(es[0].tag) + Leb(|es[0].value|) + es[0].value + Serialize(es[1..])
  }

  datatype Cut = NoEntry | Cut(entry: Entry, rest: seq<Byte>)

  /** One entry off the front. */
  function CutEntry(p: seq<Byte>): (r: Cut)
    ensures r.Cut? ==> |r.rest| < |p|
  {
    var t := Decoded(p);
    if t.None? then NoEntry
    else
      var q := p[t.value.used..];
      var n := Decoded(q);
      if n.None? || |q| - n.value.used < n.value.value then NoEntry
      else
        var v := q[n.value.used..];
        Cut(Entry(t.value.value, v[..n.value.value]), v[n.value.value..])
  }

  lemma CutSerialized(e: Entry, rest: seq<Byte>)
    requires e.tag < U64_LIMIT && |e.value| < U64_LIMIT
    ensures CutEntry(Leb(e.tag) + Leb(|e.value|) + e.value + rest) == Cut(e, rest)
  {
    var q := Leb(|e.value|) + (e.value + rest);
    var p := Leb(e.tag) + q;
    assert Leb(e.tag) + Leb(|e.value|) + e.value + rest == p;
    UvarintRoundTrip(e.tag, q);
    UvarintRoundTrip(|e.value|, e.value + rest);
    assert p[|Leb(e.tag)|..] == q && q[|Leb(|e.value|)|..] == e.value + rest;
    assert (e.value + rest)[..|e.value|] == e.value && (e.value + rest)[|e.value|..] == rest;
  }

  // ---- sorting ----------------------------------------------------------------------------------

  function InsertEntry(es: seq<Entry>, e: Entry): seq<Entry>
  {
    if es == [] || e.tag <= es[0].tag then [e] + es else [es[0]] + InsertEntry(es[1..], e)
  }

  function SortEntries(es: seq<Entry>): seq<Entry>
  {
    if es == [] then [] else InsertEntry(SortEntries(es[1..]), es[0])
  }

  predicate TagsDiffer(es: seq<Entry>)
  {
    && (forall i :: 0 <= i < |es| ==> 0 < es[i].tag < U64_LIMIT && |es[i].value| < U64_LIMIT)
    && (forall i, j :: 0 <= i < j < |es| ==> es[i].tag != es[j].tag)
  }

  lemma {:induction false} InsertAscends(es: seq<Entry>, e: Entry)
    requires Ascending(es) && 0 < e.tag < U64_LIMIT && |e.value| < U64_LIMIT && forall x :: x in es ==> x.tag != e.tag
    ensures Ascending(InsertEntry(es, e)) && forall x :: x in InsertEntry(es, e) <==> x == e || x in es
  {
    if es != [] && es[0].tag < e.tag {
      InsertAscends(es[1..], e);
      var rest := InsertEntry(es[1..], e);
      forall i | 0 <= i < |rest| ensures es[0].tag < rest[i].tag { assert rest[i] in rest; }
    } else if es != [] {
      assert es[0] in es;
    }
  }

  lemma {:induction false} SortAscends(es: seq<Entry>)
    requires TagsDiffer(es)
    ensures Ascending(SortEntries(es)) && forall x :: x in SortEntries(es) <==> x in es
  {
    if es == [] {
    } else {
      SortAscends(es[1..]);
      InsertAscends(SortEntries(es[1..]), es[0]);
    }
  }

  lemma {:induction false} AscendingUnique(a: seq<Entry>, b: seq<Entry>)
    requires Ascending(a) && Ascending(b) && forall x :: x in a <==> x in b
    ensures a == b
  {
    assert (a != [] ==> a[0] in a) && (b != [] ==> b[0] in b);
    if a == [] {
    } else {
      var i :| 0 <= i < |b| && b[i] == a[0];
      var j :| 0 <= j < |a| && a[j] == b[0];
      assert a[0] == b[0];
      forall x ensures x in a[1..] <==> x in b[1..] { TailMember(a, x); TailMember(b, x); }
      AscendingUnique(a[1..], b[1..]);
    }
  }

  lemma TailMember(a: seq<Entry>, x: Entry)
    requires Ascending(a) && a != []
    ensures x in a[1..] <==> x in a && x != a[0]
  {
    if x in a && x != a[0] {
      var i :| 0 <= i < |a| && a[i] == x;
      assert a[1..][i - 1] == x;
    }
    if x in a[1..] { var i :| 0 <= i < |a[1..]| && a[1..][i] == x; }
  }

  // ---- encoding ---------------------------------------------------------------------------------

  /** The fields that are not at their default, in tag order. */
  function Stored<V(==)>(s: Schema<V>, known: seq<nat>, fields: map<nat, V>): seq<Entry>
  {
    if known == [] then []
    else
      var t := known[0];
      (if t in fields && fields[t] != s.initial(t) then [Entry(t, s.put(t, fields[t]))] else []) +
          Stored(s, known[1..], fields)
  }

  /** A config this schema can hold. */
  ghost predicate Valid<V>(s: Schema<V>, cfg: Config<V>)
  {
    && (forall i, j :: 0 <= i < j < |s.known| ==> s.known[i] < s.known[j])
    && (forall t :: t in cfg.fields <==> t in s.known) && Ascending(cfg.unknown)
    && (forall e :: e in cfg.unknown ==> e.tag !in s.known)
    && (forall t :: t in s.known ==> 0 < t < U64_LIMIT && s.norm(t, s.initial(t)) == s.initial(t))
    && (forall t :: t in s.known && cfg.fields[t] != s.initial(t) ==> Written(s, t, cfg.fields[t]))
  }

  /** A field's reader gives back `norm` of what was written, or refuses it. */
  predicate Written<V(==)>(s: Schema<V>, t: nat, v: V)
  {
    |s.put(t, v)| < U64_LIMIT && (s.get(t, s.put(t, v)) == Garbled || s.get(t, s.put(t, v)) == Fetched(s.norm(t, v)))
  }

  /** No field that is written is one its own reader refuses. */
  ghost predicate Decodable<V>(s: Schema<V>, cfg: Config<V>)
    requires Valid(s, cfg)
  {
    forall t :: t in s.known && cfg.fields[t] != s.initial(t) ==> s.get(t, s.put(t, cfg.fields[t])).Fetched?
  }

  lemma {:induction false} StoredIs<V>(s: Schema<V>, known: seq<nat>, fields: map<nat, V>, e: Entry)
    ensures e in Stored(s, known, fields) <==>
            e.tag in known && e.tag in fields && fields[e.tag] != s.initial(e.tag)
                && e.value == s.put(e.tag, fields[e.tag])
  {
    if known == [] {
    } else {
      StoredIs(s, known[1..], fields, e);
    }
  }

  lemma {:induction false} StoredAscends<V>(s: Schema<V>, known: seq<nat>, fields: map<nat, V>)
    requires forall i, j :: 0 <= i < j < |known| ==> known[i] < known[j]
    requires forall t :: t in known && t in fields && fields[t] != s.initial(t) ==>
               0 < t < U64_LIMIT && |s.put(t, fields[t])| < U64_LIMIT
    ensures Ascending(Stored(s, known, fields))
  {
    if known == [] {
    } else {
      StoredAscends(s, known[1..], fields);
      var rest := Stored(s, known[1..], fields);
      forall i | 0 <= i < |rest| ensures known[0] < rest[i].tag {
        assert rest[i] in rest;
        StoredIs(s, known[1..], fields, rest[i]);
        var j :| 0 <= j < |known[1..]| && known[1..][j] == rest[i].tag;
      }
    }
  }

  /** The canonical blob: the stored and the preserved entries in tag order. */
  function Encoded<V(==)>(s: Schema<V>, cfg: Config<V>): seq<Byte>
  {
    HEADER + Serialize(SortEntries(Stored(s, s.known, cfg.fields) + cfg.unknown))
  }

  method AppendEntries(head: seq<Byte>, es: seq<Entry>) returns (blob: seq<Byte>)
    ensures blob == head + Serialize(es)
  {
    hide Leb;
    blob := head;
    var i := 0;
    while i < |es|
      invariant 0 <= i <= |es| && blob + Serialize(es[i..]) == head + Serialize(es)
    {
      assert es[i..][1..] == es[i + 1..];
      ghost var w1, w2, w3, rest, b0 := Leb(es[i].tag), Leb(|es[i].value|), es[i].value, Serialize(es[i + 1..]), blob;
      assert b0 + (w1 + w2 + w3 + rest) == b0 + w1 + w2 + w3 + rest;
      blob := AppendUvarint(blob, es[i].tag);
      blob := AppendUvarint(blob, |es[i].value|);
      blob := blob + es[i].value;
      i := i + 1;
    }
    assert blob + [] == blob;
  }

  /** `encode`: the stored fields and the preserved entries, merged into tag order. */
  method Encode<V(==)>(s: Schema<V>, cfg: Config<V>) returns (blob: seq<Byte>)
    ensures blob == Encoded(s, cfg)
  {
    hide SortEntries, Serialize;
    var out: seq<Entry> := [];
    var i := 0;
    while i < |s.known|
      invariant 0 <= i <= |s.known| && out + Stored(s, s.known[i..], cfg.fields) == Stored(s, s.known, cfg.fields)
    {
      var t := s.known[i];
      ghost var rest := Stored(s, s.known[i + 1..], cfg.fields);
      assert s.known[i..][1..] == s.known[i + 1..];
      if t in cfg.fields && cfg.fields[t] != s.initial(t) {
        assert out + ([Entry(t, s.put(t, cfg.fields[t]))] + rest) == (out + [Entry(t, s.put(t, cfg.fields[t]))]) + rest;
        out := out + [Entry(t, s.put(t, cfg.fields[t]))];
      } else {
        assert [] + rest == rest;
      }
      i := i + 1;
    }
    assert out + [] == out;
    blob := AppendEntries(HEADER, SortEntries(out + cfg.unknown));
  }

  // ---- decoding ---------------------------------------------------------------------------------

  datatype Applied<V> = Corruption | UnsupportedFormat | Good(cfg: Config<V>)

  function Apply<V(==)>(s: Schema<V>, cfg: Config<V>, e: Entry): Applied<V>
  {
    if e.tag in s.known then
      match s.get(e.tag, e.value)
      case Garbled => Corruption
      case Unimplemented => UnsupportedFormat
      case Fetched(v) => Good(cfg.(fields := cfg.fields[e.tag := v]))
    else Good(cfg.(unknown := cfg.unknown + [e]))
  }

  /** Apply entries in order; tags must be positive and rise past `last`. */
  function ApplyAll<V(==)>(s: Schema<V>, cfg: Config<V>, last: nat, es: seq<Entry>): Applied<V>
    decreases |es|
  {
    if es == [] then Good(cfg)
    else if es[0].tag <= last then Corruption
    else
      var next := Apply(s, cfg, es[0]);
      if !next.Good? then next else ApplyAll(s, next.cfg, es[0].tag, es[1..])
  }

  function Initial<V(==)>(s: Schema<V>): Config<V>
  {
    Config(map t | t in s.known :: s.initial(t), [])
  }

  /** Cut an entry, check its tag, apply it; the first thing wrong decides. */
  function DecodeFrom<V(==)>(s: Schema<V>, cfg: Config<V>, last: nat, p: seq<Byte>): Applied<V>
    decreases |p|
  {
    if p == [] then Good(cfg)
    else
      var c := CutEntry(p);
      if c.NoEntry? || c.entry.tag <= last then Corruption
      else
        var next := Apply(s, cfg, c.entry);
        if !next.Good? then next else DecodeFrom(s, next.cfg, c.entry.tag, c.rest)
  }

  /** What a blob means. */
  function Meaning<V(==)>(s: Schema<V>, blob: seq<Byte>): Applied<V>
  {
    if |blob| < |HEADER| || blob[..|MAGIC|] != MAGIC then Corruption
    else if blob[|MAGIC|..|HEADER|] != VERSION then UnsupportedFormat
    else DecodeFrom(s, Initial(s), 0, blob[|HEADER|..])
  }

  /** The decoder's loop. */
  method Decode<V(==)>(s: Schema<V>, blob: seq<Byte>) returns (r: Applied<V>)
    ensures r == Meaning(s, blob)
  {
    hide CutEntry, Apply;
    if |blob| < |HEADER| || blob[..|MAGIC|] != MAGIC { return Corruption; }
    if blob[|MAGIC|..|HEADER|] != VERSION { return UnsupportedFormat; }
    var p := blob[|HEADER|..];
    var cfg: Config<V>, last: nat := Initial(s), 0;
    while p != []
      invariant Meaning(s, blob) == DecodeFrom(s, cfg, last, p)
      decreases |p|
    {
      var c := CutEntry(p);
      if c.NoEntry? || c.entry.tag <= last { return Corruption; }
      var next := Apply(s, cfg, c.entry);
      if !next.Good? { return next; }
      cfg, last, p := next.cfg, c.entry.tag, c.rest;
    }
    return Good(cfg);
  }

  lemma {:induction false} DecodeSerialized<V>(s: Schema<V>, cfg: Config<V>, last: nat, es: seq<Entry>)
    requires Ascending(es)
    ensures DecodeFrom(s, cfg, last, Serialize(es)) == ApplyAll(s, cfg, last, es)
    decreases |es|
  {
    hide CutEntry, Apply;
    if es == [] {
    } else {
      CutSerialized(es[0], Serialize(es[1..]));
      var next := Apply(s, cfg, es[0]);
      if next.Good? { DecodeSerialized(s, next.cfg, es[0].tag, es[1..]); }
    }
  }

  // ---- round trip -------------------------------------------------------------------------------

  /** The entries whose tags the schema does not know. */
  function Unknown<V(==)>(s: Schema<V>, es: seq<Entry>): seq<Entry>
  {
    if es == [] then [] else (if es[0].tag in s.known then [] else [es[0]]) + Unknown(s, es[1..])
  }

  lemma {:induction false} UnknownIs<V>(s: Schema<V>, es: seq<Entry>, e: Entry)
    ensures e in Unknown(s, es) <==> e in es && e.tag !in s.known
  {
    if es == [] {
    } else {
      UnknownIs(s, es[1..], e);
    }
  }

  lemma {:induction false} UnknownAscends<V>(s: Schema<V>, es: seq<Entry>)
    requires Ascending(es)
    ensures Ascending(Unknown(s, es))
  {
    if es == [] {
    } else {
      UnknownAscends(s, es[1..]);
      var rest := Unknown(s, es[1..]);
      forall i | 0 <= i < |rest| ensures es[0].tag < rest[i].tag {
        assert rest[i] in rest;
        UnknownIs(s, es[1..], rest[i]);
      }
    }
  }

  /** Every known entry's value reads back. */
  ghost predicate Readable<V>(s: Schema<V>, es: seq<Entry>)
  {
    forall e :: e in es && e.tag in s.known ==> s.get(e.tag, e.value).Fetched?
  }

  /** No known entry names something that is not implemented. */
  ghost predicate Implemented<V>(s: Schema<V>, es: seq<Entry>)
  {
    forall e :: e in es && e.tag in s.known ==> !s.get(e.tag, e.value).Unimplemented?
  }

  /** What applying ascending entries leaves in a field. */
  ghost predicate FieldAfter<V>(s: Schema<V>, before: Config<V>, es: seq<Entry>, after: Config<V>, t: nat)
  {
    && (forall e :: e in es && e.tag == t && t in s.known ==>
        t in after.fields && Fetched(after.fields[t]) == s.get(t, e.value))
    && ((forall e :: e in es ==> e.tag != t) && t in before.fields ==>
        t in after.fields && after.fields[t] == before.fields[t])
    && (t in after.fields ==> t in before.fields || t in s.known)
  }

  lemma FieldStep<V>(s: Schema<V>, cfg: Config<V>, es: seq<Entry>, after: Config<V>, t: nat)
    requires es != [] && Apply(s, cfg, es[0]).Good? && FieldAfter(s, Apply(s, cfg, es[0]).cfg, es[1..], after, t)
    requires forall x :: x in es[1..] ==> x.tag != es[0].tag
    ensures FieldAfter(s, cfg, es, after, t)
  {
    forall e ensures e in es <==> e == es[0] || e in es[1..] { assert es == [es[0]] + es[1..]; }
  }

  lemma {:induction false} UnknownStep<V>(s: Schema<V>, es: seq<Entry>, head: seq<Entry>)
    requires es != []
    ensures head + Unknown(s, es) == (if es[0].tag in s.known then head else head + [es[0]]) + Unknown(s, es[1..])
  {
    assert head + ([es[0]] + Unknown(s, es[1..])) == head + [es[0]] + Unknown(s, es[1..]);
  }

  lemma {:induction false} AppliedAll<V>(s: Schema<V>, cfg: Config<V>, last: nat, es: seq<Entry>)
    requires Ascending(es) && Readable(s, es) && (es != [] ==> last < es[0].tag)
    ensures ApplyAll(s, cfg, last, es).Good?
    ensures var after := ApplyAll(s, cfg, last, es).cfg;
            after.unknown == cfg.unknown + Unknown(s, es) && forall t: nat :: FieldAfter(s, cfg, es, after, t)
    decreases |es|
  {
    if es == [] {
      assert cfg.unknown + [] == cfg.unknown;
    } else {
      hide FieldAfter, Unknown;
      var e, rest := es[0], es[1..];
      assert e in es && forall x :: x in rest ==> x in es && x.tag != e.tag;
      var next := Apply(s, cfg, e).cfg;
      AppliedAll(s, next, e.tag, rest);
      var after := ApplyAll(s, next, e.tag, rest).cfg;
      UnknownStep(s, es, cfg.unknown);
      forall t: nat ensures FieldAfter(s, cfg, es, after, t) {
        FieldStep(s, cfg, es, after, t);
      }
    }
  }

  /** One unreadable entry refuses the blob. */
  lemma {:induction false} UnreadableRefused<V>(s: Schema<V>, cfg: Config<V>, last: nat, es: seq<Entry>)
    requires Ascending(es) && !Readable(s, es) && Implemented(s, es)
    ensures ApplyAll(s, cfg, last, es) == Corruption
    decreases |es|
  {
    var next := Apply(s, cfg, es[0]);
    if es[0].tag > last && next.Good? {
      assert !Readable(s, es[1..]) by {
        var e :| e in es && e.tag in s.known && !s.get(e.tag, e.value).Fetched?;
        assert e in es[1..] by { TailMember(es, e); }
      }
      UnreadableRefused(s, next.cfg, es[0].tag, es[1..]);
    }
  }

  function Normal<V>(s: Schema<V>, cfg: Config<V>): Config<V>
  {
    Config(map t | t in cfg.fields :: s.norm(t, cfg.fields[t]), cfg.unknown)
  }

  lemma MergedEntries<V>(s: Schema<V>, cfg: Config<V>) returns (es: seq<Entry>)
    requires Valid(s, cfg)
    ensures es == SortEntries(Stored(s, s.known, cfg.fields) + cfg.unknown) && Ascending(es)
    ensures (Readable(s, es) <==> Decodable(s, cfg)) && Implemented(s, es)
    ensures forall e :: e in es <==> e in Stored(s, s.known, cfg.fields) || e in cfg.unknown
  {
    hide Stored, TagsDiffer;
    var stored := Stored(s, s.known, cfg.fields);
    StoredAscends(s, s.known, cfg.fields);
    forall e
      ensures e in stored <==>
                e.tag in s.known && cfg.fields[e.tag] != s.initial(e.tag) && e.value == s.put(e.tag, cfg.fields[e.tag])
    {
      StoredIs(s, s.known, cfg.fields, e);
    }
    var all := stored + cfg.unknown;
    forall i, j | 0 <= i < j < |all| ensures all[i].tag != all[j].tag {
      if i < |stored| <= j { assert all[i] in stored && all[j] in cfg.unknown; }
    }
    SortAscends(all);
    es := SortEntries(all);
    if Readable(s, es) {
      forall t | t in s.known && cfg.fields[t] != s.initial(t) ensures s.get(t, s.put(t, cfg.fields[t])).Fetched? {
        assert Entry(t, s.put(t, cfg.fields[t])) in es;
      }
    }
  }

  /** The encoding of every valid config, read back: what its readers normalize it to, the
      unknown entries where they were, exactly when no written field is out of its reader's
      range; otherwise the whole blob is corrupt. */
  lemma RoundTrip<V>(s: Schema<V>, cfg: Config<V>)
    requires Valid(s, cfg)
    ensures Meaning(s, Encoded(s, cfg))
         == if Decodable(s, cfg) then Good(Normal(s, cfg)) else Corruption
  {
    hide Serialize, DecodeFrom, ApplyAll, SortEntries, Stored, Decodable, Valid;
    var es := MergedEntries(s, cfg);
    var blob := HEADER + Serialize(es);
    assert blob[..|MAGIC|] == MAGIC && blob[|MAGIC|..|HEADER|] == VERSION && blob[|HEADER|..] == Serialize(es);
    DecodeSerialized(s, Initial(s), 0, es);
    if Decodable(s, cfg) {
      AppliedAll(s, Initial(s), 0, es);
      AllBack(s, cfg, es, ApplyAll(s, Initial(s), 0, es).cfg);
    } else {
      UnreadableRefused(s, Initial(s), 0, es);
    }
  }

  lemma {:induction false} AllBack<V>(s: Schema<V>, cfg: Config<V>, es: seq<Entry>, after: Config<V>)
    requires Valid(s, cfg) && Decodable(s, cfg) && Ascending(es)
    requires forall e :: e in es <==> e in Stored(s, s.known, cfg.fields) || e in cfg.unknown
    requires after.unknown == [] + Unknown(s, es) && forall t: nat :: FieldAfter(s, Initial(s), es, after, t)
    ensures after == Normal(s, cfg)
  {
    hide Stored, FieldAfter, Unknown;
    UnknownSame(s, cfg, es);
    assert [] + Unknown(s, es) == Unknown(s, es);
    forall t: nat ensures t in after.fields <==> t in cfg.fields
                  ensures t in cfg.fields ==> after.fields[t] == s.norm(t, cfg.fields[t])
    {
      FieldBack(s, cfg, es, after, t);
    }
  }

  lemma {:induction false} UnknownSame<V>(s: Schema<V>, cfg: Config<V>, es: seq<Entry>)
    requires Valid(s, cfg) && Ascending(es)
    requires forall e :: e in es <==> e in Stored(s, s.known, cfg.fields) || e in cfg.unknown
    ensures Unknown(s, es) == cfg.unknown
  {
    UnknownAscends(s, es);
    forall e ensures e in Unknown(s, es) <==> e in cfg.unknown {
      UnknownIs(s, es, e);
      StoredIs(s, s.known, cfg.fields, e);
    }
    AscendingUnique(Unknown(s, es), cfg.unknown);
  }

  lemma {:induction false} FieldBack<V>(s: Schema<V>, cfg: Config<V>, es: seq<Entry>, after: Config<V>, t: nat)
    requires Valid(s, cfg) && Decodable(s, cfg) && FieldAfter(s, Initial(s), es, after, t)
    requires forall e :: e in es <==> e in Stored(s, s.known, cfg.fields) || e in cfg.unknown
    ensures t in after.fields <==> t in cfg.fields
    ensures t in cfg.fields ==> after.fields[t] == s.norm(t, cfg.fields[t])
  {
    hide Stored;
    if t in s.known {
      if cfg.fields[t] != s.initial(t) {
        assert Written(s, t, cfg.fields[t]);
        var e := Entry(t, s.put(t, cfg.fields[t]));
        StoredIs(s, s.known, cfg.fields, e);
        assert e in es;
      } else {
        forall e | e in es ensures e.tag != t { StoredIs(s, s.known, cfg.fields, e); }
      }
    }
  }
}
