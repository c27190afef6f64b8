/**
 The column family's tag table: how each durable field is written, what its reader
 accepts, and what comes back. Text is UTF-8 by a predicate the reader is given; rates
 and triggers are their 64 bits; a `usize` is 64 bits wide.
 */
module ConfigFields {
  import opened Semantics
  import opened Varint
  import opened ConfigBlob
  import Entity

  type Bytes = seq<Byte>
  type Utf8 = Bytes -> bool

  datatype Compression = Plain | Snappy | Lz4 | Zstd | Lz4Fast | Flate

  datatype Scheme = ByRules | Derived(name: Bytes) | Unresolved(name: Bytes)

  /** One part of a rule: a byte string, a codec or an age in nanoseconds. */
  datatype Part = Text(text: Bytes) | Codec(codec: Compression) | Age(age: nat)
  datatype PartKind = RawPart | NamePart | CodecPart | AgePart

  datatype Value =
    | Name(text: Bytes) | Number(n: nat) | Period(nanos: nat) | Flag(on: bool) | Bits(bits: nat) | Choice(id: Byte)
    | Algorithm(codec: Compression) | Algorithms(codecs: seq<Compression>) | Rates(rates: seq<nat>)
    | Rules(rows: seq<seq<Part>>) | Partitioning(scheme: Scheme) | Operator(operator: Option<Bytes>)

  datatype Kind =
    | NameField | NumberField(width: nat, least: nat, most: nat) | PeriodField | FlagField
    | BitsField(trigger: bool) | ChoiceField(options: Byte)
    | AlgorithmField | AlgorithmsField | RatesField | RulesField(shape: seq<PartKind>) | SchemeField | OperatorField

  const U64_MAX: nat := U64_LIMIT - 1
  const ANY: Kind := NumberField(U64_LIMIT, 0, U64_MAX)
  const COUNT: Kind := NumberField(U32_LIMIT, 0, U32_LIMIT - 1)
  const TAGS: nat := 35

  function KindOf(t: nat): Kind
  {
    match t
    case 2 => AlgorithmField
    case 6 | 10 | 28 | 30 | 33 => FlagField
    case 7 => BitsField(false)
    case 8 | 9 => COUNT
    case 11 => ChoiceField(3)
    case 12 | 16 | 29 => PeriodField
    case 13 => AlgorithmsField
    case 14 => ChoiceField(2)
    case 17 => RulesField([RawPart, CodecPart])
    case 18 => RulesField([RawPart, NamePart])
    case 19 => RulesField([RawPart, NamePart, AgePart])
    case 20 => SchemeField
    case 25 => NumberField(U64_LIMIT, 1, U64_MAX)
    case 27 => RatesField
    case 31 => NumberField(U64_LIMIT, 1, 1024)
    case 32 => OperatorField
    case 34 => BitsField(true)
    case 3 | 4 | 5 | 15 | 21 | 22 | 23 | 24 | 26 | 35 => ANY
    case _ => NameField
  }

  /** What an absent tag means: the config's default, but for the per-level codecs, whose
      absence means none. */
  function AbsentOf(t: nat): Value
  {
    match t
    case 1 => Name([0x6D, 0x65, 0x6D, 0x63, 0x6D, 0x70])
    case 2 => Algorithm(Plain)
    case 3 => Number(0x400_0000)
    case 4 => Number(10)
    case 5 => Number(512)
    case 6 => Flag(true)
    case 7 => Bits(0x3F84_7AE1_47AE_147B)
    case 8 => Number(4)
    case 9 => Number(20)
    case 11 | 14 => Choice(0)
    case 12 => Period(128_000_000)
    case 13 => Algorithms([])
    case 16 | 29 => Period(0)
    case 17 | 18 | 19 => Rules([])
    case 20 => Partitioning(ByRules)
    case 21 => Number(0x100_0000)
    case 22 => Number(0x1000_0000)
    case 23 => Number(0x8000_0000)
    case 24 => Number(0x2_0000_0000)
    case 25 => Number(4096)
    case 27 => Rates([])
    case 31 => Number(8)
    case 32 => Operator(None)
    case 34 => Bits(0)
    case 15 | 26 | 35 => Number(0)
    case _ => Flag(false)
  }

  // ---- writing ----------------------------------------------------------------------------------

  function CodecId(c: Compression): Byte
  {
    match c
    case Plain => 0
    case Snappy => 1
    case Zstd => 3
    case Flate => 5
    case Lz4 => 6
    case Lz4Fast => 6
  }

  /** Nanoseconds saturate at 64 bits. */
  function Nanos(n: nat): nat
  {
    if n < U64_LIMIT then n else U64_MAX
  }

  function PutPart(p: Part): Bytes
  {
    match p
    case Text(b) => Leb(|b|) + b
    case Codec(c) => [CodecId(c)]
    case Age(n) => Leb(Nanos(n))
  }

  function PutRow(row: seq<Part>): Bytes
  {
    if row == [] then [] else PutPart(row[0]) + PutRow(row[1..])
  }

  function PutRows(rows: seq<seq<Part>>): Bytes
  {
    if rows == [] then [] else PutRow(rows[0]) + PutRows(rows[1..])
  }

  function PutRates(rates: seq<nat>): Bytes
  {
    if rates == [] then [] else Entity.Little(rates[0], 8) + PutRates(rates[1..])
  }

  function PutCodecs(cs: seq<Compression>): Bytes
  {
    if cs == [] then [] else [CodecId(cs[0])] + PutCodecs(cs[1..])
  }

  function Put(v: Value): Bytes
  {
    match v
    case Name(b) => b
    case Number(n) => Leb(n)
    case Period(n) => Leb(Nanos(n))
    case Flag(b) => [if b then 1 else 0]
    case Bits(x) => Entity.Little(x, 8)
    case Choice(id) => [id]
    case Algorithm(c) => [CodecId(c)]
    case Algorithms(cs) => PutCodecs(cs)
    case Rates(rs) => PutRates(rs)
    case Rules(rows) => Leb(|rows|) + PutRows(rows)
    case Partitioning(s) => if s.ByRules? then [] else s.name
    case Operator(o) => if o.None? then [] else o.value
  }

  // ---- reading ----------------------------------------------------------------------------------

  function FromId(id: Byte): Option<Compression>
  {
    if id == 0 then Some(Plain) else if id == 1 then Some(Snappy) else if id == 3 then Some(Zstd)
    else if id == 5 then Some(Flate) else if id == 6 then Some(Lz4) else None
  }

  /** A cursor step: malformed, an unknown codec, or an item and the rest. */
  datatype Taken<T> = Stop | NoCodec | Taken(item: T, rest: Bytes)

  function TakePart(utf8: Utf8, kind: PartKind, b: Bytes): Taken<Part>
  {
    match kind
    case CodecPart =>
      if b == [] then Stop else if FromId(b[0]).None? then NoCodec else Taken(Codec(FromId(b[0]).value), b[1..])
    case AgePart =>
      var d := Decoded(b);
      if d.None? then Stop else Taken(Age(d.value.value), b[d.value.used..])
    case _ =>
      var d := Decoded(b);
      if d.None? || |b| - d.value.used < d.value.value then Stop
      else
        var text := b[d.value.used..d.value.used + d.value.value];
        if kind.NamePart? && !utf8(text) then Stop else Taken(Text(text), b[d.value.used + d.value.value..])
  }

  function TakeRow(utf8: Utf8, shape: seq<PartKind>, b: Bytes): Taken<seq<Part>>
    decreases |shape|
  {
    if shape == [] then Taken([], b)
    else
      var p := TakePart(utf8, shape[0], b);
      if p.Stop? then Stop else if p.NoCodec? then NoCodec
      else
        var more := TakeRow(utf8, shape[1..], p.rest);
        if !more.Taken? then more else Taken([p.item] + more.item, more.rest)
  }

  function TakeRows(utf8: Utf8, shape: seq<PartKind>, n: nat, b: Bytes): Taken<seq<seq<Part>>>
    decreases n
  {
    if n == 0 then Taken([], b)
    else
      var r := TakeRow(utf8, shape, b);
      if r.Stop? then Stop else if r.NoCodec? then NoCodec
      else
        var more := TakeRows(utf8, shape, n - 1, r.rest);
        if !more.Taken? then more else Taken([r.item] + more.item, more.rest)
  }

  /** A counted list that fills its value; the count is bounded by the bytes left. */
  function GetRules(utf8: Utf8, shape: seq<PartKind>, b: Bytes): Fetch<Value>
  {
    var d := Decoded(b);
    if d.None? || d.value.value > |b| - d.value.used then Garbled
    else Finished(TakeRows(utf8, shape, d.value.value, b[d.value.used..]))
  }

  function Finished(t: Taken<seq<seq<Part>>>): Fetch<Value>
  {
    match t
    case Stop => Garbled
    case NoCodec => Unimplemented
    case Taken(rows, rest) => if rest != [] then Garbled else Fetched(Rules(rows))
  }

  /** The cursor over a list value, rule by rule. */
  method ReadRules(utf8: Utf8, shape: seq<PartKind>, b: Bytes) returns (r: Fetch<Value>)
    ensures r == GetRules(utf8, shape, b)
  {
    hide TakeRow;
    var d := Decoded(b);
    if d.None? { return Garbled; }
    var rest, n := b[d.value.used..], d.value.value;
    if n > |rest| { return Garbled; }
    var rows: seq<seq<Part>> := [];
    var i := 0;
    ghost var whole := TakeRows(utf8, shape, n, rest);
    assert whole.Taken? ==> [] + whole.item == whole.item;
    while i < n
      invariant 0 <= i <= n
      invariant whole == (var t := TakeRows(utf8, shape, n - i, rest);
                          if !t.Taken? then t else Taken(rows + t.item, t.rest))
    {
      var row := TakeRow(utf8, shape, rest);
      if row.Stop? { return Garbled; }
      if row.NoCodec? { return Unimplemented; }
      ghost var more := TakeRows(utf8, shape, n - i - 1, row.rest);
      assert more.Taken? ==> rows + ([row.item] + more.item) == rows + [row.item] + more.item;
      rows, rest, i := rows + [row.item], row.rest, i + 1;
    }
    assert rows + [] == rows;
    return if rest != [] then Garbled else Fetched(Rules(rows));
  }

  /** A whole value that is one minimal varint. */
  function GetUvar(b: Bytes): Option<nat>
  {
    var d := Decoded(b);
    if d.None? || d.value.used != |b| || d.value.used != |Leb(d.value.value)| then None else Some(d.value.value)
  }

  function GetCodecs(b: Bytes): Option<seq<Compression>>
  {
    if b == [] then Some([])
    else
      var c, rest := FromId(b[0]), GetCodecs(b[1..]);
      if c.None? || rest.None? then None else Some([c.value] + rest.value)
  }

  /** The bits of a float strictly between zero and one. */
  predicate RateBits(x: nat)
  {
    0 < x < 0x3FF0_0000_0000_0000
  }

  /** The bits of a finite float that is not negative; minus zero is not. */
  predicate TriggerBits(x: nat)
  {
    x < 0x7FF0_0000_0000_0000 || x == 0x8000_0000_0000_0000
  }

  function GetRates(b: Bytes): Option<seq<nat>>
  {
    if b == [] then Some([])
    else if |b| < 8 || !RateBits(Entity.ReadLittle(b, 8)) then None
    else
      var rest := GetRates(b[8..]);
      if rest.None? then None else Some([Entity.ReadLittle(b, 8)] + rest.value)
  }

  function Get(utf8: Utf8, kind: Kind, b: Bytes): Fetch<Value>
  {
    match kind
    case NameField => if utf8(b) then Fetched(Name(b)) else Garbled
    case NumberField(_, least, most) =>
      var n := GetUvar(b);
      if n.None? || !(least <= n.value <= most) then Garbled else Fetched(Number(n.value))
    case PeriodField => var n := GetUvar(b); if n.None? then Garbled else Fetched(Period(n.value))
    case FlagField => if |b| == 1 && b[0] < 2 then Fetched(Flag(b[0] == 1)) else Garbled
    case BitsField(trigger) =>
      if |b| != 8 || (trigger && !TriggerBits(Entity.ReadLittle(b, 8))) then Garbled
          else Fetched(Bits(Entity.ReadLittle(b, 8)))
    case ChoiceField(options) => if |b| != 1 then Garbled else if b[0] < options then Fetched(Choice(b[0]))
        else Unimplemented
    case AlgorithmField => if |b| != 1 then Garbled else Checked(FromId(b[0]), (c: Compression) => Algorithm(c))
    case AlgorithmsField => Checked(GetCodecs(b), (cs: seq<Compression>) => Algorithms(cs))
    case RatesField => var rs := GetRates(b); if rs.None? then Garbled else Fetched(Rates(rs.value))
    case RulesField(shape) => GetRules(utf8, shape, b)
    case SchemeField => if utf8(b) then Fetched(Partitioning(Unresolved(b))) else Garbled
    case OperatorField => if utf8(b) then Fetched(Operator(Some(b))) else Garbled
  }

  /** A codec id that names nothing here is not implemented. */
  function Checked<T>(codec: Option<T>, make: T -> Value): Fetch<Value>
  {
    if codec.None? then Unimplemented else Fetched(make(codec.value))
  }

  // ---- what comes back --------------------------------------------------------------------------

  function NormCodec(c: Compression): Compression
  {
    if c.Lz4Fast? then Lz4 else c
  }

  function NormPart(p: Part): Part
  {
    match p
    case Text(_) => p
    case Codec(c) => Codec(NormCodec(c))
    case Age(n) => Age(Nanos(n))
  }

  function NormRow(row: seq<Part>): seq<Part>
  {
    if row == [] then [] else [NormPart(row[0])] + NormRow(row[1..])
  }

  function NormRows(rows: seq<seq<Part>>): seq<seq<Part>>
  {
    if rows == [] then [] else [NormRow(rows[0])] + NormRows(rows[1..])
  }

  function NormCodecs(cs: seq<Compression>): seq<Compression>
  {
    if cs == [] then [] else [NormCodec(cs[0])] + NormCodecs(cs[1..])
  }

  /** LZ4-fast is read as LZ4, a derived scheme as its unresolved name, and a period past
      64 bits of nanoseconds as the longest one. */
  function Norm(v: Value): Value
  {
    match v
    case Period(n) => Period(Nanos(n))
    case Algorithm(c) => Algorithm(NormCodec(c))
    case Algorithms(cs) => Algorithms(NormCodecs(cs))
    case Rules(rows) => Rules(NormRows(rows))
    case Partitioning(s) => if s.Derived? then Partitioning(Unresolved(s.name)) else v
    case _ => v
  }

  predicate PartFits(utf8: Utf8, kind: PartKind, p: Part)
  {
    match kind
    case RawPart => p.Text? && |p.text| < U64_LIMIT
    case NamePart => p.Text? && |p.text| < U64_LIMIT && utf8(p.text)
    case CodecPart => p.Codec?
    case AgePart => p.Age?
  }

  predicate RowFits(utf8: Utf8, shape: seq<PartKind>, row: seq<Part>)
  {
    |row| == |shape| && forall i :: 0 <= i < |row| ==> PartFits(utf8, shape[i], row[i])
  }

  /** A value the field's type can hold. */
  predicate Fits(utf8: Utf8, kind: Kind, v: Value)
  {
    match kind
    case NameField => v.Name? && utf8(v.text)
    case NumberField(width, _, _) => v.Number? && v.n < width <= U64_LIMIT
    case PeriodField => v.Period?
    case FlagField => v.Flag?
    case BitsField(_) => v.Bits? && v.bits < U64_LIMIT
    case ChoiceField(options) => v.Choice? && v.id < options
    case AlgorithmField => v.Algorithm?
    case AlgorithmsField => v.Algorithms?
    case RatesField => v.Rates? && forall i :: 0 <= i < |v.rates| ==> v.rates[i] < U64_LIMIT
    case RulesField(shape) =>
      v.Rules? && |v.rows| < U64_LIMIT && forall i :: 0 <= i < |v.rows| ==> RowFits(utf8, shape, v.rows[i])
    case SchemeField => v.Partitioning? && (!v.scheme.ByRules? ==> utf8(v.scheme.name))
    case OperatorField => v.Operator? && (v.operator.Some? ==> utf8(v.operator.value))
  }

  /** The range its reader insists on. */
  predicate InRange(kind: Kind, v: Value)
  {
    && (kind.NumberField? && v.Number? ==> kind.least <= v.n <= kind.most)
    && (kind.BitsField? && kind.trigger && v.Bits? ==> TriggerBits(v.bits))
    && (v.Rates? ==> forall i :: 0 <= i < |v.rates| ==> RateBits(v.rates[i]))
  }

  /** Never written: the absent scheme and the absent operator. */
  predicate Elided(v: Value)
  {
    v == Partitioning(ByRules) || v == Operator(None)
  }

  lemma {:induction false} UvarBack(n: nat)
    requires n < U64_LIMIT
    ensures GetUvar(Leb(n)) == Some(n)
  {
    UvarintRoundTrip(n, []);
    assert Leb(n) + [] == Leb(n);
  }

  lemma {:induction false} EightBytes(x: nat, rest: Bytes)
    requires x < U64_LIMIT
    ensures Entity.ReadLittle(Entity.Little(x, 8) + rest, 8) == x
  {
    Entity.FourBytes();
    assert Entity.Limit(6) == 0x1_0000_0000_0000 && Entity.Limit(8) == U64_LIMIT;
    Entity.LittleRead(x, 8, rest);
  }

  lemma {:induction false} CodecsBack(cs: seq<Compression>)
    ensures GetCodecs(PutCodecs(cs)) == Some(NormCodecs(cs))
  {
    if cs == [] {
    } else {
      CodecsBack(cs[1..]);
    }
  }

  lemma {:induction false} RatesBack(rates: seq<nat>)
    requires forall i :: 0 <= i < |rates| ==> rates[i] < U64_LIMIT
    ensures GetRates(PutRates(rates)) == if forall i :: 0 <= i < |rates| ==> RateBits(rates[i]) then Some(rates)
              else None
  {
    if rates == [] {
    } else {
      var rest := PutRates(rates[1..]);
      EightBytes(rates[0], rest);
      RatesBack(rates[1..]);
      assert (Entity.Little(rates[0], 8) + rest)[8..] == rest;
      assert [rates[0]] + rates[1..] == rates;
      assert (forall i :: 0 <= i < |rates| ==> RateBits(rates[i]))
        <==> RateBits(rates[0]) && forall i :: 0 <= i < |rates[1..]| ==> RateBits(rates[1..][i]);
    }
  }

  lemma PartBack(utf8: Utf8, kind: PartKind, p: Part, rest: Bytes)
    requires PartFits(utf8, kind, p)
    ensures TakePart(utf8, kind, PutPart(p) + rest) == Taken(NormPart(p), rest)
  {
    if p.Text? {
      var w := Leb(|p.text|);
      UvarintRoundTrip(|p.text|, p.text + rest);
      var b := PutPart(p) + rest;
      assert b == w + (p.text + rest);
      assert b[|w|..|w| + |p.text|] == p.text && b[|w| + |p.text|..] == rest;
    } else if p.Age? {
      UvarintRoundTrip(Nanos(p.age), rest);
    }
  }

  lemma {:induction false} RowBack(utf8: Utf8, shape: seq<PartKind>, row: seq<Part>, rest: Bytes)
    requires RowFits(utf8, shape, row)
    ensures TakeRow(utf8, shape, PutRow(row) + rest) == Taken(NormRow(row), rest)
    decreases |row|
  {
    hide TakePart, PutPart, NormPart;
    if row != [] {
      PartBack(utf8, shape[0], row[0], PutRow(row[1..]) + rest);
      RowBack(utf8, shape[1..], row[1..], rest);
      assert PutRow(row) + rest == PutPart(row[0]) + (PutRow(row[1..]) + rest);
    } else {
      assert PutRow(row) + rest == rest;
    }
  }

  lemma RowsStep(utf8: Utf8, shape: seq<PartKind>, n: nat, b: Bytes, row: seq<Part>, next: Bytes, rows: seq<seq<Part>>,
                 rest: Bytes)
    requires TakeRow(utf8, shape, b) == Taken(row, next) && TakeRows(utf8, shape, n, next) == Taken(rows, rest)
    ensures TakeRows(utf8, shape, n + 1, b) == Taken([row] + rows, rest)
  {
    hide TakeRow;
  }

  lemma {:induction false} NoRows(utf8: Utf8, shape: seq<PartKind>, b: Bytes)
    ensures TakeRows(utf8, shape, 0, b) == Taken([], b)
  {
  }

  lemma {:induction false} RowsBack(utf8: Utf8, shape: seq<PartKind>, rows: seq<seq<Part>>, rest: Bytes)
    requires forall i :: 0 <= i < |rows| ==> RowFits(utf8, shape, rows[i])
    ensures TakeRows(utf8, shape, |rows|, PutRows(rows) + rest) == Taken(NormRows(rows), rest)
    decreases |rows|
  {
    hide TakeRow, TakeRows, PutRow, NormRow, RowFits;
    if rows == [] {
      assert PutRows(rows) + rest == rest;
      NoRows(utf8, shape, rest);
    } else {
      var row, more := rows[0], rows[1..];
      RowBack(utf8, shape, row, PutRows(more) + rest);
      RowsBack(utf8, shape, more, rest);
      assert PutRows(rows) + rest == PutRow(row) + (PutRows(more) + rest);
      RowsStep(utf8, shape, |more|, PutRows(rows) + rest, NormRow(row), PutRows(more) + rest, NormRows(more), rest);
    }
  }

  /** A list never counts more rules than it has bytes. */
  lemma {:induction false} RowsLong(utf8: Utf8, shape: seq<PartKind>, rows: seq<seq<Part>>)
    requires shape != [] && forall i :: 0 <= i < |rows| ==> RowFits(utf8, shape, rows[i])
    ensures |PutRows(rows)| >= |rows|
  {
    if rows == [] {
    } else {
      assert RowFits(utf8, shape, rows[0]) && |PutPart(rows[0][0])| >= 1;
      RowsLong(utf8, shape, rows[1..]);
    }
  }

  lemma {:induction false} RulesBack(utf8: Utf8, shape: seq<PartKind>, rows: seq<seq<Part>>)
    requires shape != [] && |rows| < U64_LIMIT && forall i :: 0 <= i < |rows| ==> RowFits(utf8, shape, rows[i])
    ensures GetRules(utf8, shape, Leb(|rows|) + PutRows(rows)) == Fetched(Rules(NormRows(rows)))
  {
    hide TakeRows, PutRows, NormRows, RowFits;
    var w := Leb(|rows|);
    UvarintRoundTrip(|rows|, PutRows(rows));
    RowsLong(utf8, shape, rows);
    RowsBack(utf8, shape, rows, []);
    assert (w + PutRows(rows))[|w|..] == PutRows(rows) && PutRows(rows) + [] == PutRows(rows);
  }

  lemma NumberBack(utf8: Utf8, kind: Kind, v: Value)
    requires Fits(utf8, kind, v) && (v.Number? || v.Period? || v.Bits?)
    ensures Get(utf8, kind, Put(v)) == if InRange(kind, v) then Fetched(Norm(v)) else Garbled
  {
    hide GetUvar, Leb;
    match v
    case Number(n) => UvarBack(n);
    case Period(n) => UvarBack(Nanos(n));
    case Bits(x) => EightBytes(x, []); assert Entity.Little(x, 8) + [] == Entity.Little(x, 8);
    case _ =>
  }

  lemma ListBack(utf8: Utf8, kind: Kind, v: Value)
    requires Fits(utf8, kind, v) && (v.Algorithms? || v.Rates? || v.Rules?) && (kind.RulesField? ==> kind.shape != [])
    ensures Get(utf8, kind, Put(v)) == if InRange(kind, v) then Fetched(Norm(v)) else Garbled
  {
    hide GetRules, GetCodecs, GetRates, PutCodecs, PutRates, PutRows, RowFits, NormRows, NormCodecs;
    match v
    case Algorithms(cs) => CodecsBack(cs);
    case Rates(rs) => RatesBack(rs);
    case Rules(rows) => RulesBack(utf8, kind.shape, rows);
    case _ =>
  }

  lemma PlainBack(utf8: Utf8, kind: Kind, v: Value)
    requires Fits(utf8, kind, v) && !Elided(v)
    requires (v.Name? || v.Flag? || v.Choice? || v.Algorithm? || v.Partitioning? || v.Operator?)
    ensures Get(utf8, kind, Put(v)) == if InRange(kind, v) then Fetched(Norm(v)) else Garbled
  {
    hide GetUvar, GetRules, GetCodecs, GetRates, PutCodecs, PutRates, PutRows, Leb, RowFits;
  }

  /** A field reads back normalized exactly when it is in its reader's range. */
  lemma FieldRoundTrip(utf8: Utf8, kind: Kind, v: Value)
    requires Fits(utf8, kind, v) && !Elided(v) && (kind.RulesField? ==> kind.shape != [])
    ensures Get(utf8, kind, Put(v)) == if InRange(kind, v) then Fetched(Norm(v)) else Garbled
  {
    hide Fits, Get, Put, InRange, Norm, Elided;
    if v.Number? || v.Period? || v.Bits? {
      NumberBack(utf8, kind, v);
    } else if v.Algorithms? || v.Rates? || v.Rules? {
      ListBack(utf8, kind, v);
    } else {
      PlainBack(utf8, kind, v);
    }
  }

  // ---- the whole config -------------------------------------------------------------------------

  function ColumnFamily(utf8: Utf8): Schema<Value>
  {
    Schema(seq(TAGS, i => i + 1), AbsentOf, (t, v) => Put(v), (t, b) => Get(utf8, KindOf(t), b), (t, v) => Norm(v))
  }

  /** A config the engine can hold: each field of its type, each value short enough to
      write, unknown tags ascending and none of them a known one. */
  ghost predicate Held(utf8: Utf8, cfg: Config<Value>)
  {
    && (forall t :: t in cfg.fields <==> 1 <= t <= TAGS)
    && (forall t :: t in cfg.fields ==> Fits(utf8, KindOf(t), cfg.fields[t]) && |Put(cfg.fields[t])| < U64_LIMIT)
    && Ascending(cfg.unknown) && forall e :: e in cfg.unknown ==> e.tag > TAGS
  }

  lemma AbsentNormal(t: nat)
    ensures Norm(AbsentOf(t)) == AbsentOf(t)
    ensures KindOf(t).SchemeField? ==> AbsentOf(t) == Partitioning(ByRules)
    ensures KindOf(t).OperatorField? ==> AbsentOf(t) == Operator(None)
    ensures KindOf(t).RulesField? ==> KindOf(t).shape != []
  {
  }

  lemma HeldWritten(utf8: Utf8, cfg: Config<Value>, t: nat)
    requires Held(utf8, cfg) && t in cfg.fields && cfg.fields[t] != AbsentOf(t)
    ensures Get(utf8, KindOf(t), Put(cfg.fields[t])) ==
              if InRange(KindOf(t), cfg.fields[t]) then Fetched(Norm(cfg.fields[t])) else Garbled
  {
    hide Get, Put, Norm, InRange, KindOf, AbsentOf;
    AbsentNormal(t);
    FieldRoundTrip(utf8, KindOf(t), cfg.fields[t]);
  }

  /** Every field away from its default is in the range its reader insists on. */
  ghost predicate AllInRange(cfg: Config<Value>)
  {
    forall t :: t in cfg.fields && cfg.fields[t] != AbsentOf(t) ==> InRange(KindOf(t), cfg.fields[t])
  }

  lemma HeldValid(utf8: Utf8, cfg: Config<Value>)
    requires Held(utf8, cfg)
    ensures Valid(ColumnFamily(utf8), cfg) && (Decodable(ColumnFamily(utf8), cfg) <==> AllInRange(cfg))
  {
    hide Get, Put, Norm, InRange, KindOf, AbsentOf, Fits;
    var s := ColumnFamily(utf8);
    forall t: nat ensures t in s.known <==> 1 <= t <= TAGS { if 1 <= t <= TAGS { assert s.known[t - 1] == t; } }
    forall t: nat ensures s.norm(t, s.initial(t)) == s.initial(t) { AbsentNormal(t); }
    forall t | t in cfg.fields && cfg.fields[t] != s.initial(t)
      ensures Written(s, t, cfg.fields[t])
      ensures (s.get(t, s.put(t, cfg.fields[t])).Fetched? <==> InRange(KindOf(t), cfg.fields[t]))
    {
      HeldWritten(utf8, cfg, t);
    }
  }

  /** Decoding a config's encoding gives every durable field back, normalized, and every
      unknown entry in place, if and only if each field away from its default is in the
      range its reader insists on; otherwise the blob is corrupt. */
  lemma ConfigRoundTrip(utf8: Utf8, cfg: Config<Value>)
    requires Held(utf8, cfg)
    ensures Meaning(ColumnFamily(utf8), Encoded(ColumnFamily(utf8), cfg))
         == if AllInRange(cfg) then Good(Config(map t | t in cfg.fields :: Norm(cfg.fields[t]), cfg.unknown))
             else Corruption
  {
    hide Meaning, Encoded, Valid, Decodable, AllInRange, Norm;
    HeldValid(utf8, cfg);
    RoundTrip(ColumnFamily(utf8), cfg);
    assert Normal(ColumnFamily(utf8), cfg).fields == map t | t in cfg.fields :: Norm(cfg.fields[t]);
  }

  // ---- what the engine admits -------------------------------------------------------------------

  predicate PrefixesDiffer(rows: seq<seq<Part>>)
  {
    forall i, j :: 0 <= i < j < |rows| && rows[i] != [] && rows[j] != [] ==> rows[i][0] != rows[j][0]
  }

  function Num(cfg: Config<Value>, t: nat): nat
  {
    if t in cfg.fields && cfg.fields[t].Number? then cfg.fields[t].n else 0
  }

  function RowsAt(cfg: Config<Value>, t: nat): seq<seq<Part>>
  {
    if t in cfg.fields && cfg.fields[t].Rules? then cfg.fields[t].rows else []
  }

  function RatesAt(cfg: Config<Value>, t: nat): seq<nat>
  {
    if t in cfg.fields && cfg.fields[t].Rates? then cfg.fields[t].rates else []
  }

  /** `validate`, which every family's config passes before it is first encoded. */
  predicate Validated(cfg: Config<Value>)
  {
    && PrefixesDiffer(RowsAt(cfg, 18)) && PrefixesDiffer(RowsAt(cfg, 19))
    && Num(cfg, 21) != 0 && Num(cfg, 25) != 0 && 1 <= Num(cfg, 31) <= 1024
    && (Num(cfg, 26) != 0 ==> Num(cfg, 26) >= Num(cfg, 5)) && Num(cfg, 22) != 0
    && !(33 in cfg.fields && cfg.fields[33] == Flag(true) && RatesAt(cfg, 27) != [])
    && (forall i :: 0 <= i < |RatesAt(cfg, 27)| ==> RateBits(RatesAt(cfg, 27)[i]))
    && (Num(cfg, 23) != 0 && Num(cfg, 24) != 0 ==> Num(cfg, 23) <= Num(cfg, 24))
    && (34 in cfg.fields && cfg.fields[34].Bits? ==> TriggerBits(cfg.fields[34].bits))
    && !(29 in cfg.fields && 14 in cfg.fields && cfg.fields[29] != Period(0) && cfg.fields[14] == Choice(1))
  }

  /** The tags whose readers ask for more than the type does. */
  lemma RangedTags(t: nat)
    ensures KindOf(t).NumberField? && t != 25 && t != 31 ==>
              KindOf(t).least == 0 && KindOf(t).most + 1 == KindOf(t).width
    ensures KindOf(25) == NumberField(U64_LIMIT, 1, U64_MAX) && KindOf(31) == NumberField(U64_LIMIT, 1, 1024)
    ensures KindOf(t).BitsField? && KindOf(t).trigger ==> t == 34
    ensures KindOf(t).RatesField? ==> t == 27
  {
  }

  lemma ValidatedInRange(utf8: Utf8, cfg: Config<Value>, t: nat)
    requires Validated(cfg) && t in cfg.fields && Fits(utf8, KindOf(t), cfg.fields[t])
    ensures InRange(KindOf(t), cfg.fields[t])
  {
    hide KindOf, PrefixesDiffer, RowFits;
    RangedTags(t);
    assert t == 25 || t == 31 ==> Num(cfg, t) == cfg.fields[t].n;
    assert t == 27 && cfg.fields[t].Rates? ==> RatesAt(cfg, t) == cfg.fields[t].rates;
  }

  /** Every config the engine admits reads back: normalized, complete, unknown entries in place. */
  lemma ValidatedRoundTrip(utf8: Utf8, cfg: Config<Value>)
    requires Held(utf8, cfg) && Validated(cfg)
    ensures Meaning(ColumnFamily(utf8), Encoded(ColumnFamily(utf8), cfg))
         == Good(Config(map t | t in cfg.fields :: Norm(cfg.fields[t]), cfg.unknown))
  {
    hide Meaning, Encoded, Validated, InRange, Norm, Fits, Put, KindOf;
    forall t | t in cfg.fields ensures InRange(KindOf(t), cfg.fields[t]) { ValidatedInRange(utf8, cfg, t); }
    ConfigRoundTrip(utf8, cfg);
  }

  /** The default config but for a restart interval of zero. */
  ghost function NoRestarts(): Config<Value>
  {
    Config((map t: nat | 1 <= t <= TAGS :: AbsentOf(t))[31 := Number(0)], [])
  }

  lemma AbsentFits(utf8: Utf8, t: nat)
    requires utf8([0x6D, 0x65, 0x6D, 0x63, 0x6D, 0x70]) && 1 <= t <= TAGS
    ensures Fits(utf8, KindOf(t), AbsentOf(t))
  {
  }

  /** Values that take no list or name to write. */
  predicate Small(v: Value)
  {
    match v
    case Name(b) => |b| < 100
    case Number(n) => n < U64_LIMIT
    case Algorithms(cs) => cs == []
    case Rates(rs) => rs == []
    case Rules(rows) => rows == []
    case Partitioning(s) => s == ByRules
    case Operator(o) => o == None
    case _ => true
  }

  lemma SmallPut(v: Value)
    requires Small(v)
    ensures |Put(v)| < U64_LIMIT
  {
    PowTen();
    assert Pow(10) == 128 * Pow(9);
    match v
    case Number(n) => LebLength(n, 10);
    case Period(n) => LebLength(Nanos(n), 10);
    case _ =>
  }

  lemma AbsentSmall(t: nat)
    ensures Small(AbsentOf(t))
  {
  }

  lemma NoRestartsHeld(utf8: Utf8)
    requires utf8([0x6D, 0x65, 0x6D, 0x63, 0x6D, 0x70])
    ensures Held(utf8, NoRestarts())
  {
    hide Fits, AbsentOf, Put, KindOf, Small;
    var cfg := NoRestarts();
    forall t | t in cfg.fields ensures Fits(utf8, KindOf(t), cfg.fields[t]) && |Put(cfg.fields[t])| < U64_LIMIT {
      if t == 31 {
        RestartKind(utf8);
      } else {
        AbsentFits(utf8, t);
        AbsentSmall(t);
        SmallPut(AbsentOf(t));
      }
    }
  }

  lemma RestartKind(utf8: Utf8)
    ensures Fits(utf8, KindOf(31), Number(0)) && !InRange(KindOf(31), Number(0)) && AbsentOf(31) == Number(8)
    ensures |Put(Number(0))| < U64_LIMIT
  {
    SmallPut(Number(0));
  }

  /** It encodes, and its own decoder calls the result corrupt. */
  lemma NoRestartsRefused(utf8: Utf8)
    requires utf8([0x6D, 0x65, 0x6D, 0x63, 0x6D, 0x70])
    ensures Held(utf8, NoRestarts())
    ensures Meaning(ColumnFamily(utf8), Encoded(ColumnFamily(utf8), NoRestarts())) == Corruption
  {
    hide Held, Meaning, Encoded, InRange, KindOf, AbsentOf, Norm;
    var cfg := NoRestarts();
    NoRestartsHeld(utf8);
    RestartKind(utf8);
    assert 31 in cfg.fields && cfg.fields[31] == Number(0);
    ConfigRoundTrip(utf8, cfg);
  }

  // ---- the default config -------------------------------------------------------------------------

  const LEVEL_CODECS := Algorithms([Plain, Lz4, Zstd])

  /** Every field at its default: as an absent tag reads, but for the per-level codecs. */
  ghost function Default(): Config<Value>
  {
    Config((map t: nat | 1 <= t <= TAGS :: AbsentOf(t))[13 := LEVEL_CODECS], [])
  }

  lemma DefaultHeld(utf8: Utf8)
    requires utf8([0x6D, 0x65, 0x6D, 0x63, 0x6D, 0x70])
    ensures Held(utf8, Default())
  {
    hide Fits, AbsentOf, Put, KindOf, Small;
    var cfg := Default();
    forall t | t in cfg.fields ensures Fits(utf8, KindOf(t), cfg.fields[t]) && |Put(cfg.fields[t])| < U64_LIMIT {
      if t == 13 {
        LevelCodecs(utf8);
      } else {
        AbsentFits(utf8, t);
        AbsentSmall(t);
        SmallPut(AbsentOf(t));
      }
    }
  }

  lemma LevelCodecs(utf8: Utf8)
    ensures Fits(utf8, KindOf(13), LEVEL_CODECS) && Put(LEVEL_CODECS) == [0, 6, 3] && Norm(LEVEL_CODECS) == LEVEL_CODECS
    ensures AbsentOf(13) != LEVEL_CODECS
  {
    ThreeCodecs(Plain, Lz4, Zstd);
  }

  lemma {:induction false} ThreeCodecs(a: Compression, b: Compression, c: Compression)
    ensures PutCodecs([a, b, c]) == [CodecId(a), CodecId(b), CodecId(c)]
    ensures NormCodecs([a, b, c]) == [NormCodec(a), NormCodec(b), NormCodec(c)]
  {
    hide PutCodecs, NormCodecs, CodecId, NormCodec;
    CodecFirst(c, []);
    CodecFirst(b, [c]);
    CodecFirst(a, [b, c]);
    assert [c] + [] == [c] && [b] + [c] == [b, c] && [a] + [b, c] == [a, b, c];
  }

  lemma {:induction false} CodecFirst(c: Compression, rest: seq<Compression>)
    ensures PutCodecs([c] + rest) == [CodecId(c)] + PutCodecs(rest) && PutCodecs([]) == []
    ensures NormCodecs([c] + rest) == [NormCodec(c)] + NormCodecs(rest) && NormCodecs([]) == []
  {
    assert ([c] + rest)[1..] == rest;
  }

  lemma DefaultLists()
    ensures AbsentOf(18) == Rules([]) && AbsentOf(19) == Rules([]) && AbsentOf(27) == Rates([])
    ensures AbsentOf(33) == Flag(false) && AbsentOf(34) == Bits(0) && AbsentOf(29) == Period(0)
  {
  }

  lemma DefaultSizes()
    ensures AbsentOf(21) == Number(0x100_0000) && AbsentOf(25) == Number(4096) && AbsentOf(31) == Number(8)
    ensures AbsentOf(22) == Number(0x1000_0000) && AbsentOf(26) == Number(0)
    ensures AbsentOf(23) == Number(0x8000_0000) && AbsentOf(24) == Number(0x2_0000_0000)
  {
  }

  lemma DefaultValidated()
    ensures Validated(Default())
  {
    hide AbsentOf, Validated;
    var cfg := Default();
    assert forall t: nat :: 1 <= t <= TAGS && t != 13 ==> t in cfg.fields && cfg.fields[t] == AbsentOf(t);
    DefaultChecks(cfg);
  }

  lemma DefaultChecks(cfg: Config<Value>)
    requires forall t: nat :: 1 <= t <= TAGS && t != 13 ==> t in cfg.fields && cfg.fields[t] == AbsentOf(t)
    ensures Validated(cfg)
  {
    hide AbsentOf;
    DefaultLists();
    DefaultSizes();
  }

  /** The default config is one the engine admits, and reads back as itself. */
  lemma DefaultAdmitted(utf8: Utf8)
    requires utf8([0x6D, 0x65, 0x6D, 0x63, 0x6D, 0x70])
    ensures Held(utf8, Default()) && Validated(Default())
    ensures Meaning(ColumnFamily(utf8), Encoded(ColumnFamily(utf8), Default())) == Good(Default())
  {
    hide Held, Validated, Meaning, Encoded, Norm, AbsentOf;
    DefaultHeld(utf8);
    DefaultValidated();
    ValidatedRoundTrip(utf8, Default());
    forall t | t in Default().fields ensures Norm(Default().fields[t]) == Default().fields[t] {
      AbsentNormal(t);
      LevelCodecs(utf8);
    }
    assert (map t | t in Default().fields :: Norm(Default().fields[t])) == Default().fields;
  }

  /** Its encoding is the header and the codec list: every other field is elided. */
  lemma {:induction false} DefaultEncoding(utf8: Utf8)
    ensures Encoded(ColumnFamily(utf8), Default()) == HEADER + [13, 3, 0, 6, 3]
  {
    hide AbsentOf, Put;
    var s, cfg, e := ColumnFamily(utf8), Default(), ConfigBlob.Entry(13, [0, 6, 3]);
    var stored := Stored(s, s.known, cfg.fields);
    LevelCodecs(utf8);
    assert s.known[12] == 13;
    forall x ensures x in stored <==> x in [e] { StoredIs(s, s.known, cfg.fields, x); }
    StoredAscends(s, s.known, cfg.fields);
    AscendingUnique(stored, [e]);
    assert stored + cfg.unknown == [e];
    OneEntry(e);
  }

  lemma OneEntry(e: ConfigBlob.Entry)
    requires e == ConfigBlob.Entry(13, [0, 6, 3])
    ensures SortEntries([e]) == [e] && Serialize([e]) == [13, 3, 0, 6, 3]
  {
    assert [e][1..] == [] && SortEntries([]) == [] && Serialize([]) == [];
    assert Leb(13) == [13] && Leb(|e.value|) == [3];
  }
}
