/**
 What the field readers accept, on every byte string: exactly what some value is written
 as, but for varints inside a rule list, which may be padded; and which refusal it gets.
 */
module ConfigExact {
  import opened Varint
  import opened ConfigBlob
  import opened ConfigFields

  // ---- codecs -------------------------------------------------------------------------------------

  /** No codec has this id. */
  predicate Unassigned(id: Semantics.Byte)
  {
    forall c: Compression :: CodecId(c) != id
  }

  /** The codec an id names is the one that is written as it; an id that no codec has names
      none. */
  lemma FromIdExact(id: Semantics.Byte)
    ensures FromId(id).Some? ==> CodecId(FromId(id).value) == id && NormCodec(FromId(id).value) == FromId(id).value
    ensures FromId(id).None? <==> Unassigned(id)
  {
    if FromId(id).Some? { assert CodecId(FromId(id).value) == id; }
  }

  lemma {:induction false} CodecsExact(b: Bytes)
    ensures GetCodecs(b).Some? ==>
              PutCodecs(GetCodecs(b).value) == b && NormCodecs(GetCodecs(b).value) == GetCodecs(b).value
    ensures GetCodecs(b).None? <==> exists i :: 0 <= i < |b| && Unassigned(b[i])
  {
    if b == [] {
    } else {
      FromIdExact(b[0]);
      CodecsExact(b[1..]);
      if GetCodecs(b[1..]).None? {
        var i :| 0 <= i < |b[1..]| && Unassigned(b[1..][i]);
        assert Unassigned(b[i + 1]);
      }
      if i :| 0 <= i < |b| && Unassigned(b[i]) {
        assert i > 0 ==> Unassigned(b[1..][i - 1]);
      }
      if GetCodecs(b).Some? { assert [b[0]] + b[1..] == b; }
    }
  }

  // ---- numbers ------------------------------------------------------------------------------------

  lemma UvarExact(b: Bytes)
    ensures GetUvar(b).Some? ==> Leb(GetUvar(b).value) == b && GetUvar(b).value < U64_LIMIT
  {
    if GetUvar(b).Some? {
      ShortestSpelling(b, 10);
      assert b[..|b|] == b;
    }
  }

  lemma {:induction false} EightExact(b: Bytes)
    requires |b| >= 8
    ensures Entity.ReadLittle(b, 8) < U64_LIMIT && Entity.Little(Entity.ReadLittle(b, 8), 8) == b[..8]
  {
    Entity.FourBytes();
    assert Entity.Limit(6) == 0x1_0000_0000_0000 && Entity.Limit(8) == U64_LIMIT;
    Entity.ReadWritten(b, 8);
  }

  lemma {:induction false} RatesExact(b: Bytes)
    ensures GetRates(b).Some? ==>
              && PutRates(GetRates(b).value) == b
              && forall i :: 0 <= i < |GetRates(b).value| ==>
                   GetRates(b).value[i] < U64_LIMIT && RateBits(GetRates(b).value[i])
    decreases |b|
  {
    if b != [] && GetRates(b).Some? {
      EightExact(b);
      RatesExact(b[8..]);
      assert b[..8] + b[8..] == b;
      var rest := GetRates(b[8..]).value;
      assert GetRates(b).value == [Entity.ReadLittle(b, 8)] + rest && ([Entity.ReadLittle(b, 8)] + rest)[1..] == rest;
    }
  }

  // ---- rule lists: what is accepted ---------------------------------------------------------------

  /** The bytes of one part, its length or age in any spelling. */
  predicate PartSpelled(w: Bytes, p: Part)
  {
    match p
    case Codec(c) => w == [CodecId(c)]
    case Age(n) => Spells(w, n)
    case Text(t) => |t| <= |w| && w[|w| - |t|..] == t && Spells(w[..|w| - |t|], |t|)
  }

  /** A part as its reader gives it. */
  predicate PartRead(utf8: Utf8, kind: PartKind, p: Part)
  {
    PartFits(utf8, kind, p) && NormPart(p) == p
  }

  lemma PartTaken(utf8: Utf8, kind: PartKind, b: Bytes) returns (n: nat)
    requires TakePart(utf8, kind, b).Taken?
    ensures var t := TakePart(utf8, kind, b);
            0 < n <= |b| && t.rest == b[n..] && PartSpelled(b[..n], t.item) && PartRead(utf8, kind, t.item)
  {
    hide Decoded;
    var t := TakePart(utf8, kind, b);
    if kind.CodecPart? {
      n := 1;
      FromIdExact(b[0]);
      assert b[..1] == [b[0]];
    } else {
      DecodedSpells(b);
      SmallDecoded(b);
      var u := Decoded(b).value.used;
      n := if kind.AgePart? then u else u + Decoded(b).value.value;
      if !kind.AgePart? {
        assert b[..n][..u] == b[..u] && b[..n][u..] == t.item.text;
      }
    }
  }

  lemma SmallDecoded(b: Bytes)
    requires Decoded(b).Some?
    ensures Decoded(b).value.value < U64_LIMIT && 1 <= Decoded(b).value.used <= |b|
  {
  }

  lemma PartTakes(utf8: Utf8, kind: PartKind, w: Bytes, p: Part, rest: Bytes)
    requires PartSpelled(w, p) && PartRead(utf8, kind, p)
    ensures TakePart(utf8, kind, w + rest) == Taken(p, rest)
  {
    hide Decoded;
    match p
    case Codec(c) => FromIdExact(w[0]); assert (w + rest)[1..] == rest;
    case Age(n) => SpellsBefore(w, n, rest); assert (w + rest)[|w|..] == rest;
    case Text(t) =>
      var u := |w| - |t|;
      SpellsBefore(w[..u], |t|, t + rest);
      assert w + rest == w[..u] + (t + rest);
      assert (w + rest)[u..u + |t|] == t && (w + rest)[u + |t|..] == rest;
  }

  ghost predicate RowSpelled(w: Bytes, row: seq<Part>)
    decreases |row|
  {
    if row == [] then w == []
    else exists i :: 0 <= i <= |w| && PartSpelled(w[..i], row[0]) && RowSpelled(w[i..], row[1..])
  }

  predicate RowRead(utf8: Utf8, shape: seq<PartKind>, row: seq<Part>)
  {
    |row| == |shape| && forall i :: 0 <= i < |row| ==> PartRead(utf8, shape[i], row[i])
  }

  lemma {:induction false} RowTaken(utf8: Utf8, shape: seq<PartKind>, b: Bytes) returns (n: nat)
    requires TakeRow(utf8, shape, b).Taken?
    ensures var t := TakeRow(utf8, shape, b);
            |shape| <= n <= |b| && t.rest == b[n..] && RowSpelled(b[..n], t.item) && RowRead(utf8, shape, t.item)
    decreases |shape|
  {
    hide TakePart, PartSpelled, PartRead;
    if shape == [] {
      n := 0;
      assert b[0..] == b;
    } else {
      var i := PartTaken(utf8, shape[0], b);
      var m := RowTaken(utf8, shape[1..], b[i..]);
      n := i + m;
      assert b[i..][m..] == b[n..];
      RowJoins(b, i, m, TakePart(utf8, shape[0], b).item, TakeRow(utf8, shape[1..], b[i..]).item);
      assert RowSpelled(b[..n], TakeRow(utf8, shape, b).item);
      hide RowSpelled;
    }
  }

  lemma {:induction false} RowJoins(b: Bytes, i: nat, m: nat, p: Part, row: seq<Part>)
    requires i + m <= |b| && PartSpelled(b[..i], p) && RowSpelled(b[i..][..m], row)
    ensures RowSpelled(b[..i + m], [p] + row)
  {
    var w := b[..i + m];
    assert w[..i] == b[..i] && w[i..] == b[i..][..m] && ([p] + row)[1..] == row;
  }

  lemma {:induction false} RowTakes(utf8: Utf8, shape: seq<PartKind>, w: Bytes, row: seq<Part>, rest: Bytes)
    requires RowSpelled(w, row) && RowRead(utf8, shape, row)
    ensures TakeRow(utf8, shape, w + rest) == Taken(row, rest)
    decreases |row|
  {
    hide TakePart, PartSpelled, PartRead;
    if row == [] {
      assert w + rest == rest;
    } else {
      var i :| 0 <= i <= |w| && PartSpelled(w[..i], row[0]) && RowSpelled(w[i..], row[1..]);
      assert w + rest == w[..i] + (w[i..] + rest);
      PartTakes(utf8, shape[0], w[..i], row[0], w[i..] + rest);
      RowTakes(utf8, shape[1..], w[i..], row[1..], rest);
      assert [row[0]] + row[1..] == row;
    }
  }

  ghost predicate RowsSpelled(w: Bytes, rows: seq<seq<Part>>)
    decreases |rows|
  {
    if rows == [] then w == []
    else exists i :: 0 <= i <= |w| && RowSpelled(w[..i], rows[0]) && RowsSpelled(w[i..], rows[1..])
  }

  predicate RowsRead(utf8: Utf8, shape: seq<PartKind>, rows: seq<seq<Part>>)
  {
    forall i :: 0 <= i < |rows| ==> RowRead(utf8, shape, rows[i])
  }

  lemma {:induction false} RowsTaken(utf8: Utf8, shape: seq<PartKind>, count: nat, b: Bytes) returns (n: nat)
    requires TakeRows(utf8, shape, count, b).Taken?
    ensures var t := TakeRows(utf8, shape, count, b);
            && n <= |b| && t.rest == b[n..] && RowsSpelled(b[..n], t.item) && RowsRead(utf8, shape, t.item)
            && |t.item| == count
    decreases count
  {
    hide TakeRow, RowSpelled, RowRead;
    if count == 0 {
      n := 0;
      assert b[0..] == b;
    } else {
      var i := RowTaken(utf8, shape, b);
      var m := RowsTaken(utf8, shape, count - 1, b[i..]);
      n := i + m;
      var rows := TakeRows(utf8, shape, count, b).item;
      assert b[i..][m..] == b[n..] && b[..n][..i] == b[..i] && b[..n][i..] == b[i..][..m];
      assert rows[1..] == TakeRows(utf8, shape, count - 1, b[i..]).item;
    }
  }

  lemma {:induction false} RowsTakes(utf8: Utf8, shape: seq<PartKind>, w: Bytes, rows: seq<seq<Part>>, rest: Bytes)
    requires RowsSpelled(w, rows) && RowsRead(utf8, shape, rows)
    ensures TakeRows(utf8, shape, |rows|, w + rest) == Taken(rows, rest) && (shape != [] ==> |rows| <= |w|)
    decreases |rows|
  {
    hide TakeRow, RowSpelled, RowRead;
    if rows == [] {
      assert w + rest == rest;
    } else {
      var i :| 0 <= i <= |w| && RowSpelled(w[..i], rows[0]) && RowsSpelled(w[i..], rows[1..]);
      assert w + rest == w[..i] + (w[i..] + rest);
      RowTakes(utf8, shape, w[..i], rows[0], w[i..] + rest);
      RowsTakes(utf8, shape, w[i..], rows[1..], rest);
      RowBytes(utf8, shape, w[..i], rows[0]);
      assert [rows[0]] + rows[1..] == rows;
    }
  }

  lemma {:induction false} RowBytes(utf8: Utf8, shape: seq<PartKind>, w: Bytes, row: seq<Part>)
    requires RowSpelled(w, row) && RowRead(utf8, shape, row)
    ensures shape != [] ==> w != []
  {
    if shape != [] && w == [] { SomeBytes(w[..0], row[0]); }
  }

  lemma SomeBytes(w: Bytes, p: Part)
    requires PartSpelled(w, p)
    ensures w != []
  {
  }

  /** A rule list is read exactly when its bytes spell a count and that many rules. */
  ghost predicate ListSpelled(utf8: Utf8, shape: seq<PartKind>, b: Bytes, rows: seq<seq<Part>>)
  {
    && RowsRead(utf8, shape, rows)
    && exists x :: 0 <= x <= |b| && Spells(b[..x], |rows|) && RowsSpelled(b[x..], rows)
  }

  lemma RulesExact(utf8: Utf8, shape: seq<PartKind>, b: Bytes, rows: seq<seq<Part>>)
    requires shape != []
    ensures GetRules(utf8, shape, b) == Fetched(Rules(rows)) <==> ListSpelled(utf8, shape, b, rows)
  {
    hide TakeRows, RowsSpelled, RowsRead, Decoded;
    if GetRules(utf8, shape, b) == Fetched(Rules(rows)) {
      var d := Decoded(b).value;
      SmallDecoded(b);
      DecodedSpells(b);
      var n := RowsTaken(utf8, shape, d.value, b[d.used..]);
      assert b[d.used..][..n] == b[d.used..];
    }
    if ListSpelled(utf8, shape, b, rows) {
      var x :| 0 <= x <= |b| && Spells(b[..x], |rows|) && RowsSpelled(b[x..], rows);
      SpellsBefore(b[..x], |rows|, b[x..]);
      assert b[..x] + b[x..] == b && b[x..] + [] == b[x..];
      RowsTakes(utf8, shape, b[x..], rows, []);
    }
  }

  // ---- rule lists: an unknown codec -----------------------------------------------------------------

  lemma PartRefused(utf8: Utf8, kind: PartKind, b: Bytes)
    ensures TakePart(utf8, kind, b).NoCodec? <==> kind.CodecPart? && b != [] && Unassigned(b[0])
  {
    if b != [] { FromIdExact(b[0]); }
  }

  /** Some parts of a rule, then where a codec is due an id no codec has. */
  ghost predicate RowUnknown(utf8: Utf8, shape: seq<PartKind>, b: Bytes)
  {
    exists parts: seq<Part>, n: nat :: UnknownAfter(utf8, shape, b, parts, n)
  }

  ghost predicate UnknownAfter(utf8: Utf8, shape: seq<PartKind>, b: Bytes, parts: seq<Part>, n: nat)
  {
    && |parts| < |shape| && RowRead(utf8, shape[..|parts|], parts) && n < |b| && RowSpelled(b[..n], parts)
    && shape[|parts|].CodecPart? && Unassigned(b[n])
  }

  lemma {:induction false} RowRefused(utf8: Utf8, shape: seq<PartKind>, b: Bytes)
    requires TakeRow(utf8, shape, b).NoCodec?
    ensures RowUnknown(utf8, shape, b)
    decreases |shape|
  {
    hide TakePart, PartSpelled, PartRead, Unassigned;
    PartRefused(utf8, shape[0], b);
    if TakePart(utf8, shape[0], b).NoCodec? {
      assert UnknownAfter(utf8, shape, b, [], 0);
    } else {
      var i := PartTaken(utf8, shape[0], b);
      var item := TakePart(utf8, shape[0], b).item;
      RowRefused(utf8, shape[1..], b[i..]);
      var parts: seq<Part>, n: nat :| UnknownAfter(utf8, shape[1..], b[i..], parts, n);
      var all := [item] + parts;
      assert b[..i + n][..i] == b[..i] && b[..i + n][i..] == b[i..][..n] && all[1..] == parts;
      assert shape[..|all|][1..] == shape[1..][..|parts|];
      assert UnknownAfter(utf8, shape, b, all, i + n);
    }
  }

  lemma {:induction false} RowRefuses(utf8: Utf8, shape: seq<PartKind>, b: Bytes, parts: seq<Part>, n: nat)
    requires UnknownAfter(utf8, shape, b, parts, n)
    ensures TakeRow(utf8, shape, b).NoCodec?
    decreases |shape|
  {
    hide TakePart, PartSpelled, PartRead, Unassigned;
    if parts == [] {
      PartRefused(utf8, shape[0], b);
      assert b[..n] == [];
    } else {
      var w := b[..n];
      var i :| 0 <= i <= |w| && PartSpelled(w[..i], parts[0]) && RowSpelled(w[i..], parts[1..]);
      assert b == w[..i] + b[i..];
      PartTakes(utf8, shape[0], w[..i], parts[0], b[i..]);
      assert b[i..][..n - i] == w[i..] && shape[1..][..|parts| - 1] == shape[..|parts|][1..];
      assert UnknownAfter(utf8, shape[1..], b[i..], parts[1..], n - i);
      RowRefuses(utf8, shape[1..], b[i..], parts[1..], n - i);
    }
  }

  /** Fewer than `count` rules, then one with an unknown codec. */
  ghost predicate RowsUnknown(utf8: Utf8, shape: seq<PartKind>, count: nat, b: Bytes)
  {
    exists rows: seq<seq<Part>>, n: nat :: RowAfter(utf8, shape, count, b, rows, n)
  }

  ghost predicate RowAfter(utf8: Utf8, shape: seq<PartKind>, count: nat, b: Bytes, rows: seq<seq<Part>>, n: nat)
  {
    |rows| < count && RowsRead(utf8, shape, rows) && n <= |b| && RowsSpelled(b[..n], rows)
        && RowUnknown(utf8, shape, b[n..])
  }

  lemma {:induction false} RowsRefused(utf8: Utf8, shape: seq<PartKind>, count: nat, b: Bytes)
    requires TakeRows(utf8, shape, count, b).NoCodec?
    ensures RowsUnknown(utf8, shape, count, b)
    decreases count
  {
    hide TakeRow, RowSpelled, RowRead, RowUnknown;
    assert b[0..] == b && b[..0] == [];
    if TakeRow(utf8, shape, b).NoCodec? {
      RowRefused(utf8, shape, b);
      assert RowAfter(utf8, shape, count, b, [], 0);
    } else {
      var i := RowTaken(utf8, shape, b);
      var row := TakeRow(utf8, shape, b).item;
      RowsRefused(utf8, shape, count - 1, b[i..]);
      var rows: seq<seq<Part>>, n: nat :| RowAfter(utf8, shape, count - 1, b[i..], rows, n);
      var all := [row] + rows;
      assert b[..i + n][..i] == b[..i] && b[..i + n][i..] == b[i..][..n] && all[1..] == rows
          && b[i..][n..] == b[i + n..];
      assert RowAfter(utf8, shape, count, b, all, i + n);
    }
  }

  lemma {:induction false} RowsRefuse(utf8: Utf8, shape: seq<PartKind>, count: nat, b: Bytes, rows: seq<seq<Part>>,
                                      n: nat)
    requires RowAfter(utf8, shape, count, b, rows, n)
    ensures TakeRows(utf8, shape, count, b).NoCodec?
    decreases |rows|
  {
    hide TakeRow, RowSpelled, RowRead;
    if rows == [] {
      assert b[..n] == [] && b[n..] == b;
      var parts: seq<Part>, m: nat :| UnknownAfter(utf8, shape, b, parts, m);
      RowRefuses(utf8, shape, b, parts, m);
    } else {
      var w := b[..n];
      var i :| 0 <= i <= |w| && RowSpelled(w[..i], rows[0]) && RowsSpelled(w[i..], rows[1..]);
      assert b == w[..i] + b[i..];
      RowTakes(utf8, shape, w[..i], rows[0], b[i..]);
      assert b[i..][..n - i] == w[i..] && b[i..][n - i..] == b[n..];
      assert RowAfter(utf8, shape, count - 1, b[i..], rows[1..], n - i);
      RowsRefuse(utf8, shape, count - 1, b[i..], rows[1..], n - i);
    }
  }

  /** A count the bytes can hold, and among that many rules an unknown codec, with everything
      before it well formed. */
  ghost predicate ListUnknown(utf8: Utf8, shape: seq<PartKind>, b: Bytes)
  {
    exists x: nat, count: nat :: x <= |b| && Spells(b[..x], count) && count <= |b| - x
        && RowsUnknown(utf8, shape, count, b[x..])
  }

  lemma RulesRefused(utf8: Utf8, shape: seq<PartKind>, b: Bytes)
    ensures GetRules(utf8, shape, b).Unimplemented? <==> ListUnknown(utf8, shape, b)
  {
    hide TakeRows, RowsUnknown, Decoded;
    if GetRules(utf8, shape, b).Unimplemented? {
      var d := Decoded(b).value;
      SmallDecoded(b);
      DecodedSpells(b);
      RowsRefused(utf8, shape, d.value, b[d.used..]);
    }
    if ListUnknown(utf8, shape, b) {
      var x: nat, count: nat :| x <= |b| && Spells(b[..x], count) && count <= |b| - x
          && RowsUnknown(utf8, shape, count, b[x..]);
      SpellsBefore(b[..x], count, b[x..]);
      assert b[..x] + b[x..] == b;
      UnknownRefuses(utf8, shape, count, b[x..]);
    }
  }

  lemma {:induction false} UnknownRefuses(utf8: Utf8, shape: seq<PartKind>, count: nat, b: Bytes)
    requires RowsUnknown(utf8, shape, count, b)
    ensures TakeRows(utf8, shape, count, b).NoCodec?
  {
    var rows: seq<seq<Part>>, n: nat :| RowAfter(utf8, shape, count, b, rows, n);
    RowsRefuse(utf8, shape, count, b, rows, n);
  }

  // ---- every field ----------------------------------------------------------------------------------

  /** A field kind of the tag table. */
  predicate Proper(kind: Kind)
  {
    && (kind.NumberField? ==> kind.most < kind.width <= U64_LIMIT)
    && (kind.RulesField? ==> kind.shape != [])
  }

  lemma KindsProper(t: nat)
    ensures Proper(KindOf(t))
  {
  }

  lemma NumberExact(utf8: Utf8, kind: Kind, b: Bytes, v: Value)
    requires Proper(kind) && Get(utf8, kind, b) == Fetched(v)
    requires (kind.NumberField? || kind.PeriodField? || kind.BitsField?)
    ensures Fits(utf8, kind, v) && InRange(kind, v) && Norm(v) == v && !Elided(v) && Put(v) == b
  {
    hide GetUvar, Leb;
    if kind.BitsField? {
      EightExact(b);
      assert b[..8] == b;
    } else {
      UvarExact(b);
    }
  }

  lemma ListExact(utf8: Utf8, kind: Kind, b: Bytes, v: Value)
    requires Proper(kind) && Get(utf8, kind, b) == Fetched(v)
    requires kind.AlgorithmsField? || kind.RatesField? || kind.RulesField?
    ensures Fits(utf8, kind, v) && InRange(kind, v) && Norm(v) == v && !Elided(v)
    ensures !kind.RulesField? ==> Put(v) == b
  {
    hide GetCodecs, GetRates, GetRules, PutRates, PutCodecs, NormCodecs, NormRows;
    if kind.AlgorithmsField? {
      CodecsExact(b);
    } else if kind.RatesField? {
      RatesExact(b);
    } else {
      RulesRead(utf8, kind.shape, b, v);
    }
  }

  /** The rules of a list that was read are rules as they read back. */
  lemma RulesRead(utf8: Utf8, shape: seq<PartKind>, b: Bytes, v: Value)
    requires shape != [] && GetRules(utf8, shape, b) == Fetched(v)
    ensures v.Rules? && RowsRead(utf8, shape, v.rows) && |v.rows| < U64_LIMIT
    ensures NormRows(v.rows) == v.rows && forall i :: 0 <= i < |v.rows| ==> RowFits(utf8, shape, v.rows[i])
  {
    hide TakeRows, NormRows, RowsSpelled;
    RulesExact(utf8, shape, b, v.rows);
    var x :| 0 <= x <= |b| && Spells(b[..x], |v.rows|) && RowsSpelled(b[x..], v.rows);
    SmallDecoded(b[..x]);
    RowsNormal(utf8, shape, v.rows);
  }

  lemma {:induction false} RowsNormal(utf8: Utf8, shape: seq<PartKind>, rows: seq<seq<Part>>)
    requires RowsRead(utf8, shape, rows)
    ensures NormRows(rows) == rows
  {
    if rows == [] {
    } else {
      assert RowRead(utf8, shape, rows[0]);
      RowNormal(utf8, shape, rows[0]);
      RowsNormal(utf8, shape, rows[1..]);
      assert [rows[0]] + rows[1..] == rows;
    }
  }

  lemma {:induction false} RowNormal(utf8: Utf8, shape: seq<PartKind>, row: seq<Part>)
    requires RowRead(utf8, shape, row)
    ensures NormRow(row) == row
    decreases |row|
  {
    if row == [] {
    } else {
      assert PartRead(utf8, shape[0], row[0]);
      RowNormal(utf8, shape[1..], row[1..]);
      assert [row[0]] + row[1..] == row;
    }
  }

  lemma PlainExact(utf8: Utf8, kind: Kind, b: Bytes, v: Value)
    requires Get(utf8, kind, b) == Fetched(v)
    requires !kind.NumberField? && !kind.PeriodField? && !kind.BitsField?
    requires !kind.AlgorithmsField? && !kind.RatesField? && !kind.RulesField?
    ensures Fits(utf8, kind, v) && InRange(kind, v) && Norm(v) == v && !Elided(v) && Put(v) == b
  {
    if kind.AlgorithmField? { FromIdExact(b[0]); }
  }

  /** What a reader gives is a value of the field, in its range and as it reads back, and any
      field but a rule list was written exactly so. */
  lemma FieldExact(utf8: Utf8, kind: Kind, b: Bytes, v: Value)
    requires Proper(kind) && Get(utf8, kind, b) == Fetched(v)
    ensures Fits(utf8, kind, v) && InRange(kind, v) && Norm(v) == v && !Elided(v)
    ensures !kind.RulesField? ==> Put(v) == b
  {
    hide Get, Fits, InRange, Norm, Elided, Put;
    if kind.NumberField? || kind.PeriodField? || kind.BitsField? {
      NumberExact(utf8, kind, b, v);
    } else if kind.AlgorithmsField? || kind.RatesField? || kind.RulesField? {
      ListExact(utf8, kind, b, v);
    } else {
      PlainExact(utf8, kind, b, v);
    }
  }

  /** A field but a rule list reads exactly the bytes some value in range is written as. */
  lemma FieldAccepts(utf8: Utf8, kind: Kind, b: Bytes)
    requires Proper(kind) && !kind.RulesField?
    ensures Get(utf8, kind, b).Fetched? <==>
            exists v: Value :: Fits(utf8, kind, v) && InRange(kind, v) && !Elided(v) && Put(v) == b
  {
    hide Get, Fits, InRange, Norm, Elided, Put;
    if Get(utf8, kind, b).Fetched? { FieldExact(utf8, kind, b, Get(utf8, kind, b).value); }
    if v: Value :| Fits(utf8, kind, v) && InRange(kind, v) && !Elided(v) && Put(v) == b {
      FieldRoundTrip(utf8, kind, v);
    }
  }

  /** The bytes name something that is not implemented: an unknown mode, or a codec id that
      no codec has, where all before it is well formed. */
  ghost predicate NamesUnknown(utf8: Utf8, kind: Kind, b: Bytes)
  {
    match kind
    case ChoiceField(options) => |b| == 1 && b[0] >= options
    case AlgorithmField => |b| == 1 && Unassigned(b[0])
    case AlgorithmsField => exists i :: 0 <= i < |b| && Unassigned(b[i])
    case RulesField(shape) => ListUnknown(utf8, shape, b)
    case _ => false
  }

  /** Exactly then the field is refused as unsupported; any other refusal is corruption. */
  lemma FieldRefused(utf8: Utf8, kind: Kind, b: Bytes)
    ensures Get(utf8, kind, b).Unimplemented? <==> NamesUnknown(utf8, kind, b)
  {
    hide GetRules, GetCodecs, GetRates, GetUvar, ListUnknown, Unassigned, FromId;
    match kind
    case AlgorithmField => if |b| == 1 { FromIdExact(b[0]); }
    case AlgorithmsField => CodecsExact(b);
    case RulesField(shape) => RulesRefused(utf8, shape, b); RulesKind(utf8, shape, b);
    case _ =>
  }

  lemma RulesKind(utf8: Utf8, shape: seq<PartKind>, b: Bytes)
    ensures Get(utf8, RulesField(shape), b) == GetRules(utf8, shape, b)
  {
  }

  // ---- the numbers of the tag table -----------------------------------------------------------------

  /** The least and the greatest number a tag's reader takes. */
  function LeastOf(t: nat): nat
  {
    if t == 25 || t == 31 then 1 else 0
  }

  function MostOf(t: nat): nat
  {
    if t == 31 then 1024 else if t == 8 || t == 9 then U32_LIMIT - 1 else U64_LIMIT - 1
  }

  predicate NumberTag(t: nat)
  {
    t in {3, 4, 5, 8, 9, 15, 21, 22, 23, 24, 25, 26, 31, 35}
  }

  lemma NumberKinds(t: nat)
    requires NumberTag(t)
    ensures KindOf(t).NumberField? && KindOf(t).least == LeastOf(t) && KindOf(t).most == MostOf(t)
  {
  }

  /** Every number tag reads exactly the numbers of its range: two counts are 32 bits wide,
      the block size is positive, the restart interval is at most 1024. */
  lemma {:induction false} NumbersRead(utf8: Utf8, t: nat, n: nat)
    requires NumberTag(t) && n < U64_LIMIT
    ensures Get(utf8, KindOf(t), Leb(n)) == if LeastOf(t) <= n <= MostOf(t) then Fetched(Number(n)) else Garbled
  {
    hide KindOf, NumberTag, GetUvar, Leb;
    NumberKinds(t);
    UvarBack(n);
  }

  /** The sync modes are three and the compaction styles two; any other byte is unsupported. */
  lemma ModesRead(utf8: Utf8, id: Semantics.Byte)
    ensures Get(utf8, KindOf(11), [id]) == if id < 3 then Fetched(Choice(id)) else Unimplemented
    ensures Get(utf8, KindOf(14), [id]) == if id < 2 then Fetched(Choice(id)) else Unimplemented
  {
    hide GetUvar, GetRules, GetCodecs, GetRates;
  }
}
