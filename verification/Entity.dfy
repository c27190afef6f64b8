/** The entity frame: named byte columns as one value. */
module Entity {
  import opened Semantics
  import opened Varint
  import opened Duplicates

  const MAX_COLUMNS: nat := 4096
  const MAX_NAME_LEN: nat := 4096
  const MAX_BYTES: nat := 0x400_0000
  const FIXED_HEADER: nat := 14
  /** Two offsets and two one-byte lengths. */
  const MIN_DIR_ENTRY: nat := 10
  const MAGIC: seq<Byte> := [0x57, 0x56, 0x45, 0x31]
  const VERSION: Byte := 1

  type Checksum = seq<Byte> -> nat

  // ---- fixed-width integers ---------------------------------------------------------------

  /** `n` bytes, least significant first. */
  function Little(x: nat, n: nat): (r: seq<Byte>)
    ensures |r| == n
  {
    if n == 0 then [] else [x % 256] + Little(x / 256, n - 1)
  }

  function ReadLittle(b: seq<Byte>, n: nat): nat
    requires n <= |b|
  {
    if n == 0 then 0 else var low: nat := b[0]; low + 256 * ReadLittle(b[1..], n - 1)
  }

  function Limit(n: nat): nat
  {
    if n == 0 then 1 else 256 * Limit(n - 1)
  }

  lemma {:induction false} LittleRead(x: nat, n: nat, rest: seq<Byte>)
    requires x < Limit(n)
    ensures ReadLittle(Little(x, n) + rest, n) == x
  {
    if n == 0 {
    } else {
      assert (Little(x, n) + rest)[1..] == Little(x / 256, n - 1) + rest;
      LittleRead(x / 256, n - 1, rest);
    }
  }

  lemma SplitByte(low: Byte, high: nat, limit: nat)
    requires high < limit
    ensures low + 256 * high < 256 * limit && (low + 256 * high) % 256 == low && (low + 256 * high) / 256 == high
  {
  }

  lemma {:induction false} ReadWritten(b: seq<Byte>, n: nat)
    requires n <= |b|
    ensures ReadLittle(b, n) < Limit(n) && Little(ReadLittle(b, n), n) == b[..n]
  {
    if n == 0 {
    } else {
      ReadWritten(b[1..], n - 1);
      SplitByte(b[0], ReadLittle(b[1..], n - 1), Limit(n - 1));
      assert b[..n] == [b[0]] + b[1..][..n - 1];
    }
  }

  function U32(x: nat): (r: seq<Byte>)
    ensures |r| == 4
  {
    Little(x, 4)
  }

  function ReadU32(b: seq<Byte>): nat
    requires |b| >= 4
  {
    ReadLittle(b, 4)
  }

  lemma FourBytes()
    ensures Limit(4) == U32_LIMIT
  {
    assert Limit(2) == 0x1_0000;
  }

  // ---- the frame ----------------------------------------------------------------------------

  function Written(x: nat, isOffset: bool): seq<Byte>
  {
    if isOffset then U32(x) else Leb(x)
  }

  /** Offsets and lengths in turn, ending in a length. */
  function WrittenFields(f: seq<nat>): seq<Byte>
  {
    if f == [] then [] else Written(f[0], |f| % 2 == 0) + WrittenFields(f[1..])
  }

  function EntryFields(c: Column, off: nat): seq<nat>
  {
    [off, |c.name|, off + |c.name|, |c.value|]
  }

  function DirEntry(c: Column, off: nat): seq<Byte>
  {
    WrittenFields(EntryFields(c, off))
  }

  function Directory(cols: seq<Column>, off: nat): seq<Byte>
  {
    if cols == [] then []
    else DirEntry(cols[0], off) + Directory(cols[1..], off + |cols[0].name| + |cols[0].value|)
  }

  function Payload(cols: seq<Column>): seq<Byte>
  {
    if cols == [] then [] else cols[0].name + cols[0].value + Payload(cols[1..])
  }

  function Header(dirLen: nat, count: nat): (r: seq<Byte>)
    ensures |r| == FIXED_HEADER
  {
    MAGIC + [VERSION, 0] + U32(FIXED_HEADER + dirLen) + U32(count)
  }

  function Body(cols: seq<Column>): seq<Byte>
  {
    Header(|Directory(cols, 0)|, |cols|) + Directory(cols, 0) + Payload(cols)
  }

  function Sealed(body: seq<Byte>, crc: Checksum): seq<Byte>
  {
    body + U32(crc(body) % U32_LIMIT)
  }

  function Frame(cols: seq<Column>, crc: Checksum): seq<Byte>
  {
    Sealed(Body(cols), crc)
  }

  predicate NamesFit(cols: seq<Column>)
  {
    forall i :: 0 <= i < |cols| ==> 1 <= |cols[i].name| <= MAX_NAME_LEN
  }

  /** The column sets that have a frame. */
  predicate Legal(cols: seq<Column>)
  {
    && |cols| <= MAX_COLUMNS && NamesFit(cols) && NamesDiffer(cols, |cols|)
    && FIXED_HEADER + |Directory(cols, 0)| + |Payload(cols)| + 4 <= MAX_BYTES
  }

  // ---- decoding -----------------------------------------------------------------------------

  datatype Slice = Slice(nameOff: nat, nameLen: nat, valOff: nat, valLen: nat)

  datatype Read<T> = Fail | Got(item: T, rest: seq<Byte>)

  /** An offset is a `u32`; a length is a varint of at most five bytes and `u32::MAX`. */
  function ReadField(b: seq<Byte>, isOffset: bool): (r: Read<nat>)
    ensures r.Got? ==> |r.rest| < |b|
  {
    if isOffset then
      if |b| < 4 then Fail else Got(ReadU32(b), b[4..])
    else
      var r := Below(Spelled(b, 5), U32_LIMIT);
      if r.None? then Fail else Got(r.value.value, b[r.value.used..])
  }

  /** The next `n` fields of an entry: offsets and lengths in turn, ending in a length. */
  function ReadFields(b: seq<Byte>, n: nat): (r: Read<seq<nat>>)
    ensures r.Got? ==> |r.item| == n && |r.rest| <= |b| && (n > 0 ==> |r.rest| < |b|)
  {
    if n == 0 then Got([], b)
    else
      var first := ReadField(b, n % 2 == 0);
      if first.Fail? then Fail
      else
        var more := ReadFields(first.rest, n - 1);
        if more.Fail? then Fail else Got([first.item] + more.item, more.rest)
  }

  function SliceOf(f: seq<nat>): Slice
    requires |f| == 4
  {
    Slice(f[0], f[1], f[2], f[3])
  }

  /** The regions of one column are packed at the cursor and inside the payload. */
  predicate Fits(s: Slice, cursor: nat, payLen: nat)
  {
    && 1 <= s.nameLen <= MAX_NAME_LEN && s.nameOff == cursor && s.nameOff + s.nameLen <= payLen
    && s.valOff == s.nameOff + s.nameLen && s.valOff + s.valLen <= payLen
  }

  /** Read `count` packed entries that use up the directory and cover the payload. */
  function ReadDirectory(dir: seq<Byte>, count: nat, cursor: nat, payLen: nat): Option<seq<Slice>>
    decreases count
  {
    if count == 0 then if dir == [] && cursor == payLen then Some([]) else None
    else
      var e := ReadFields(dir, 4);
      if e.Fail? || !Fits(SliceOf(e.item), cursor, payLen) then None
      else
        var s := SliceOf(e.item);
        var rest := ReadDirectory(e.rest, count - 1, s.valOff + s.valLen, payLen);
        if rest.None? then None else Some([s] + rest.value)
  }

  predicate InPayload(ss: seq<Slice>, payLen: nat)
  {
    forall i :: 0 <= i < |ss| ==> ss[i].nameOff + ss[i].nameLen <= payLen && ss[i].valOff + ss[i].valLen <= payLen
  }

  function ColumnAt(s: Slice, payload: seq<Byte>): Column
    requires s.nameOff + s.nameLen <= |payload| && s.valOff + s.valLen <= |payload|
  {
    Column(payload[s.nameOff..s.nameOff + s.nameLen], payload[s.valOff..s.valOff + s.valLen])
  }

  function Columns(ss: seq<Slice>, payload: seq<Byte>): (r: seq<Column>)
    requires InPayload(ss, |payload|)
    ensures |r| == |ss|
  {
    if ss == [] then [] else [ColumnAt(ss[0], payload)] + Columns(ss[1..], payload)
  }

  lemma {:induction false} DirectoryInPayload(dir: seq<Byte>, count: nat, cursor: nat, payLen: nat)
    requires ReadDirectory(dir, count, cursor, payLen).Some?
    ensures |ReadDirectory(dir, count, cursor, payLen).value| == count
    ensures InPayload(ReadDirectory(dir, count, cursor, payLen).value, payLen)
    decreases count
  {
    if count == 0 {
    } else {
      var e := ReadFields(dir, 4);
      DirectoryInPayload(e.rest, count - 1, SliceOf(e.item).valOff + SliceOf(e.item).valLen, payLen);
    }
  }

  /** The fixed part holds: length, magic, version, flags, header length and count. */
  predicate HeaderOk(v: seq<Byte>)
  {
    && FIXED_HEADER + 4 <= |v| <= MAX_BYTES && v[..4] == MAGIC && v[4] == VERSION && v[5] == 0
    && FIXED_HEADER <= ReadU32(v[6..10]) <= |v| - 4 && ReadU32(v[10..14]) <= MAX_COLUMNS
    && ReadU32(v[10..14]) * MIN_DIR_ENTRY <= ReadU32(v[6..10]) - FIXED_HEADER
  }

  function DirOf(v: seq<Byte>): seq<Byte>
    requires HeaderOk(v)
  {
    v[FIXED_HEADER..ReadU32(v[6..10])]
  }

  function PayloadOf(v: seq<Byte>): seq<Byte>
    requires HeaderOk(v)
  {
    v[ReadU32(v[6..10])..|v| - 4]
  }

  datatype Status = Ok | NotEntity | Corruption

  /** What decoding a value yields, by the frame's own rules. */
  ghost predicate Decodes(v: seq<Byte>, crc: Checksum, cols: seq<Column>, status: Status)
  {
    var ss := if HeaderOk(v) then ReadDirectory(DirOf(v), ReadU32(v[10..14]), 0, |PayloadOf(v)|) else None;
    if ss.None? || !InPayload(ss.value, |PayloadOf(v)|) || !NamesDiffer(Columns(ss.value, PayloadOf(v)), |ss.value|)
    then status == NotEntity && cols == []
    else if ReadU32(v[|v| - 4..]) != crc(v[..|v| - 4]) % U32_LIMIT then status == Corruption && cols == []
    else status == Ok && cols == Columns(ss.value, PayloadOf(v))
  }

  // ---- round trip ---------------------------------------------------------------------------

  lemma FieldRoundTrip(x: nat, isOffset: bool, rest: seq<Byte>)
    requires x < U32_LIMIT
    ensures ReadField(Written(x, isOffset) + rest, isOffset) == Got(x, rest)
  {
    FourBytes();
    if isOffset {
      LittleRead(x, 4, rest);
      assert (U32(x) + rest)[4..] == rest;
    } else {
      assert Pow(2) == 0x4000 && Pow(4) == 0x1000_0000 && Pow(5) == 0x8_0000_0000;
      LebLength(x, 5);
      SpelledLeb(x, rest, 5);
      assert (Leb(x) + rest)[|Leb(x)|..] == rest;
    }
  }

  lemma {:induction false} FieldsRoundTrip(f: seq<nat>, rest: seq<Byte>)
    requires forall i :: 0 <= i < |f| ==> f[i] < U32_LIMIT
    ensures ReadFields(WrittenFields(f) + rest, |f|) == Got(f, rest)
  {
    if f == [] {
      assert WrittenFields(f) + rest == rest;
    } else {
      var more := WrittenFields(f[1..]) + rest;
      assert WrittenFields(f) + rest == Written(f[0], |f| % 2 == 0) + more;
      FieldRoundTrip(f[0], |f| % 2 == 0, more);
      FieldsRoundTrip(f[1..], rest);
      assert [f[0]] + f[1..] == f;
    }
  }

  lemma EntryWritten(c: Column, off: nat)
    ensures DirEntry(c, off) == U32(off) + Leb(|c.name|) + U32(off + |c.name|) + Leb(|c.value|)
  {
    var f := EntryFields(c, off);
    assert f[1..][1..] == f[2..] && f[2..][1..] == f[3..] && f[3..][1..] == [];
    assert WrittenFields(f[3..]) == Leb(f[3]);
    assert WrittenFields(f[2..]) == U32(f[2]) + Leb(f[3]);
    assert WrittenFields(f[1..]) == Leb(f[1]) + (U32(f[2]) + Leb(f[3]));
  }

  function SlicesOf(cols: seq<Column>, off: nat): (r: seq<Slice>)
    ensures |r| == |cols|
  {
    if cols == [] then []
    else
      [Slice(off, |cols[0].name|, off + |cols[0].name|, |cols[0].value|)] +
      SlicesOf(cols[1..], off + |cols[0].name| + |cols[0].value|)
  }

  lemma ReadStep(b: seq<Byte>, f: seq<nat>, more: seq<Byte>, count: nat, cursor: nat, payLen: nat)
    requires |f| == 4 && ReadFields(b, 4) == Got(f, more) && Fits(SliceOf(f), cursor, payLen)
    ensures var rest := ReadDirectory(more, count, SliceOf(f).valOff + SliceOf(f).valLen, payLen);
            ReadDirectory(b, count + 1, cursor, payLen) == if rest.None? then None else Some([SliceOf(f)] + rest.value)
  {
  }

  lemma {:induction false} DirectoryRoundTrip(cols: seq<Column>, off: nat, payLen: nat)
    requires NamesFit(cols) && off + |Payload(cols)| == payLen < U32_LIMIT
    ensures ReadDirectory(Directory(cols, off), |cols|, off, payLen) == Some(SlicesOf(cols, off))
  {
    hide ReadFields, WrittenFields;
    if cols == [] {
    } else {
      var c := cols[0];
      var next := off + |c.name| + |c.value|;
      var f, more := EntryFields(c, off), Directory(cols[1..], next);
      FieldsRoundTrip(f, more);
      ReadStep(WrittenFields(f) + more, f, more, |cols| - 1, off, payLen);
      DirectoryRoundTrip(cols[1..], next, payLen);
    }
  }

  lemma FirstColumn(c: Column, before: seq<Byte>, rest: seq<Byte>)
    ensures var payload, mid := before + (c.name + c.value + rest), |before| + |c.name|;
            payload == before + c.name + c.value + rest && payload[|before|..mid] == c.name
                && payload[mid..mid + |c.value|] == c.value
  {
  }

  /** Slicing the payload where the directory says gives the columns back. */
  lemma {:induction false} PayloadRoundTrip(cols: seq<Column>, before: seq<Byte>)
    ensures InPayload(SlicesOf(cols, |before|), |before + Payload(cols)|)
    ensures Columns(SlicesOf(cols, |before|), before + Payload(cols)) == cols
    decreases |cols|
  {
    if cols == [] {
    } else {
      var c, rest := cols[0], Payload(cols[1..]);
      FirstColumn(c, before, rest);
      PayloadRoundTrip(cols[1..], before + c.name + c.value);
      var ss := SlicesOf(cols, |before|);
      assert ss[1..] == SlicesOf(cols[1..], |before + c.name + c.value|);
      assert cols == [c] + cols[1..];
    }
  }

  lemma {:induction false} DirectoryLength(cols: seq<Column>, off: nat)
    ensures |Directory(cols, off)| >= MIN_DIR_ENTRY * |cols|
  {
    if cols == [] {
    } else {
      EntryWritten(cols[0], off);
      DirectoryLength(cols[1..], off + |cols[0].name| + |cols[0].value|);
    }
  }

  lemma HeaderParts(dirLen: nat, count: nat, rest: seq<Byte>)
    requires FIXED_HEADER + dirLen < U32_LIMIT && count < U32_LIMIT
    ensures var v := Header(dirLen, count) + rest;
            && v[..4] == MAGIC && v[4] == VERSION && v[5] == 0
            && ReadU32(v[6..10]) == FIXED_HEADER + dirLen && ReadU32(v[10..14]) == count
  {
    var v := Header(dirLen, count) + rest;
    FourBytes();
    assert v[6..10] == U32(FIXED_HEADER + dirLen) + [] && v[10..14] == U32(count) + [];
    LittleRead(FIXED_HEADER + dirLen, 4, []);
    LittleRead(count, 4, []);
  }

  /** Four parts end to end, found by their lengths. */
  lemma FourParts(head: seq<Byte>, dir: seq<Byte>, pay: seq<Byte>, sum: seq<Byte>)
    ensures var v := head + dir + pay + sum;
            && v == head + (dir + pay + sum) && |v| == |head| + |dir| + |pay| + |sum|
            && v[|head|..|head| + |dir|] == dir && v[|head| + |dir|..|v| - |sum|] == pay
            && v[..|v| - |sum|] == head + dir + pay && v[|v| - |sum|..] == sum
  {
  }

  lemma SumRead(x: nat)
    requires x < U32_LIMIT
    ensures ReadU32(U32(x)) == x
  {
    FourBytes();
    assert U32(x) + [] == U32(x);
    LittleRead(x, 4, []);
  }

  lemma SealedParts(dir: seq<Byte>, pay: seq<Byte>, count: nat, sum: nat)
    requires FIXED_HEADER + |dir| + |pay| + 4 <= MAX_BYTES && count <= MAX_COLUMNS && count * MIN_DIR_ENTRY <= |dir|
    requires sum < U32_LIMIT
    ensures var v := Header(|dir|, count) + dir + pay + U32(sum);
            && HeaderOk(v) && DirOf(v) == dir && PayloadOf(v) == pay && ReadU32(v[10..14]) == count
            && v[..|v| - 4] == Header(|dir|, count) + dir + pay && ReadU32(v[|v| - 4..]) == sum
  {
    FourParts(Header(|dir|, count), dir, pay, U32(sum));
    HeaderParts(|dir|, count, dir + pay + U32(sum));
    SumRead(sum);
  }

  /** The parts of a frame, found where the header says. */
  lemma {:induction false} FrameParts(cols: seq<Column>, crc: Checksum)
    requires Legal(cols)
    ensures var v := Frame(cols, crc);
            && HeaderOk(v) && DirOf(v) == Directory(cols, 0) && PayloadOf(v) == Payload(cols)
                && ReadU32(v[10..14]) == |cols|
            && v[..|v| - 4] == Body(cols) && ReadU32(v[|v| - 4..]) == crc(Body(cols)) % U32_LIMIT
  {
    DirectoryLength(cols, 0);
    SealedParts(Directory(cols, 0), Payload(cols), |cols|, crc(Body(cols)) % U32_LIMIT);
  }

  /** Decoding an encoded column set returns it. */
  lemma RoundTrip(cols: seq<Column>, crc: Checksum)
    requires Legal(cols)
    ensures Decodes(Frame(cols, crc), crc, cols, Ok)
  {
    FrameParts(cols, crc);
    DirectoryRoundTrip(cols, 0, |Payload(cols)|);
    PayloadRoundTrip(cols, []);
    assert [] + Payload(cols) == Payload(cols);
  }

  // ---- canonical frames -----------------------------------------------------------------------

  /** The length at the front is not padded with a final zero byte. */
  predicate UnpaddedLength(b: seq<Byte>)
  {
    var r := Spelled(b, 5);
    r.Some? && (r.value.used == 1 || b[r.value.used - 1] != 0)
  }

  predicate UnpaddedFields(b: seq<Byte>, n: nat)
  {
    n > 0 ==>
      && (n % 2 == 0 || UnpaddedLength(b))
      && ReadField(b, n % 2 == 0).Got? && UnpaddedFields(ReadField(b, n % 2 == 0).rest, n - 1)
  }

  predicate UnpaddedDirectory(dir: seq<Byte>, count: nat)
    decreases count
  {
    count > 0 ==>
      UnpaddedFields(dir, 4) && ReadFields(dir, 4).Got? && UnpaddedDirectory(ReadFields(dir, 4).rest, count - 1)
  }

  lemma LengthCanonical(b: seq<Byte>)
    requires ReadField(b, false).Got?
    ensures var f := ReadField(b, false);
            && |Leb(f.item)| + |f.rest| <= |b| && (UnpaddedLength(b) <==> b == Leb(f.item) + f.rest)
            && forall more: seq<Byte> :: b == Leb(f.item) + more ==> UnpaddedLength(b) && more == f.rest
  {
    var r := Spelled(b, 5).value;
    MinimalIff(b, 5);
    assert b == b[..r.used] + b[r.used..];
    LebShortest(b, 5);
    forall more: seq<Byte> | b == Leb(r.value) + more ensures UnpaddedLength(b) && more == b[r.used..] {
      SpelledLeb(r.value, more, 5);
      assert b[..r.used] == Leb(r.value) && b[r.used..] == more;
    }
  }

  lemma {:induction false} LebShortest(b: seq<Byte>, limit: nat)
    requires Spelled(b, limit).Some?
    ensures |Leb(Spelled(b, limit).value.value)| <= Spelled(b, limit).value.used
  {
    if b[0] >= 128 {
      var rest := Spelled(b[1..], limit - 1).value.value;
      LebShortest(b[1..], limit - 1);
      assert rest > 0 ==> (b[0] - 128 + 128 * rest) / 128 == rest;
    }
  }

  lemma FieldCanonical(b: seq<Byte>, isOffset: bool, more: seq<Byte>)
    requires ReadField(b, isOffset).Got?
    ensures var f := ReadField(b, isOffset);
            && |Written(f.item, isOffset)| + |f.rest| <= |b|
            && ((isOffset || UnpaddedLength(b)) <==> b == Written(f.item, isOffset) + f.rest)
            && (b == Written(f.item, isOffset) + more ==> (isOffset || UnpaddedLength(b)) && more == f.rest)
  {
    if isOffset {
      ReadWritten(b, 4);
      assert b == b[..4] + b[4..];
      assert b == U32(ReadU32(b)) + more ==> more == b[4..];
    } else {
      LengthCanonical(b);
    }
  }

  /** Two canonical readings in a row. */
  lemma Glue(b: seq<Byte>, a: seq<Byte>, rest: seq<Byte>, tail: seq<Byte>, first: bool, others: bool)
    requires (first <==> b == a + rest) && (others <==> rest == tail) && (b == a + tail ==> first && tail == rest)
    ensures first && others <==> b == a + tail
  {
  }

  lemma GlueTwice(b: seq<Byte>, w: seq<Byte>, tail: seq<Byte>, mid: seq<Byte>, rest: seq<Byte>, more: seq<Byte>,
                  first: bool, others: bool)
    requires (first <==> b == w + mid) && (others <==> mid == tail + rest)
    requires (mid == tail + more ==> others && more == rest)
    requires (b == w + (tail + rest) ==> first && tail + rest == mid)
    requires (b == w + (tail + more) ==> first && tail + more == mid)
    ensures (first && others <==> b == (w + tail) + rest)
    ensures (b == (w + tail) + more ==> first && others && more == rest)
  {
    assert (w + tail) + rest == w + (tail + rest) && (w + tail) + more == w + (tail + more);
  }

  lemma FieldsHead(b: seq<Byte>, n: nat)
    requires n > 0 && ReadFields(b, n).Got?
    ensures var first := ReadField(b, n % 2 == 0);
            && first.Got? && ReadFields(first.rest, n - 1).Got?
            && ReadFields(b, n) ==
                Got([first.item] + ReadFields(first.rest, n - 1).item, ReadFields(first.rest, n - 1).rest)
            && UnpaddedFields(b, n) == ((n % 2 == 0 || UnpaddedLength(b)) && UnpaddedFields(first.rest, n - 1))
            && WrittenFields(ReadFields(b, n).item) == Written(first.item, n % 2 == 0) +
                WrittenFields(ReadFields(first.rest, n - 1).item)
  {
    assert ReadFields(b, n).item[1..] == ReadFields(ReadField(b, n % 2 == 0).rest, n - 1).item;
  }

  /** Fields read back as written exactly when no length is padded. */
  lemma {:induction false} FieldsCanonical(b: seq<Byte>, n: nat, more: seq<Byte>)
    requires ReadFields(b, n).Got?
    ensures var f := ReadFields(b, n);
            && |WrittenFields(f.item)| + |f.rest| <= |b|
            && (UnpaddedFields(b, n) <==> b == WrittenFields(f.item) + f.rest)
            && (b == WrittenFields(f.item) + more ==> UnpaddedFields(b, n) && more == f.rest)
    decreases n
  {
    hide ReadField, UnpaddedLength, Written;
    if n == 0 {
      assert [] + b == b && [] + more == more;
    } else {
      FieldsHead(b, n);
      var isOffset, first := n % 2 == 0, ReadField(b, n % 2 == 0);
      var rest := ReadFields(first.rest, n - 1);
      var w, tail := Written(first.item, isOffset), WrittenFields(rest.item);
      FieldsCanonical(first.rest, n - 1, more);
      FieldCanonical(b, isOffset, tail + rest.rest);
      FieldCanonical(b, isOffset, tail + more);
      GlueTwice(b, w, tail, first.rest, rest.rest, more, isOffset || UnpaddedLength(b),
                UnpaddedFields(first.rest, n - 1));
    }
  }

  lemma {:induction false} DirectoryCanonical(dir: seq<Byte>, count: nat, cursor: nat, payload: seq<Byte>)
    requires cursor <= |payload| && ReadDirectory(dir, count, cursor, |payload|).Some?
    ensures var ss := ReadDirectory(dir, count, cursor, |payload|).value;
            && InPayload(ss, |payload|) && |ss| == count && NamesFit(Columns(ss, payload))
            && payload[cursor..] == Payload(Columns(ss, payload))
            && |Directory(Columns(ss, payload), cursor)| <= |dir|
            && (UnpaddedDirectory(dir, count) <==> dir == Directory(Columns(ss, payload), cursor))
    decreases count
  {
    hide ReadFields, UnpaddedFields, WrittenFields, EntryFields, ColumnAt;
    DirectoryInPayload(dir, count, cursor, |payload|);
    if count == 0 {
    } else {
      var e := ReadFields(dir, 4);
      var s := SliceOf(e.item);
      var next := s.valOff + s.valLen;
      var ss := ReadDirectory(dir, count, cursor, |payload|).value;
      DirectoryCanonical(e.rest, count - 1, next, payload);
      var rest := Columns(ss[1..], payload);
      FieldsCanonical(dir, 4, Directory(rest, next));
      DirectoryHead(e, s, cursor, payload);
      Glue(dir, WrittenFields(e.item), e.rest, Directory(rest, next), UnpaddedFields(dir, 4),
          UnpaddedDirectory(e.rest, count - 1));
      ColumnsHead(ss, payload, rest, cursor, s);
    }
  }

  lemma {:induction false} ColumnsHead(ss: seq<Slice>, payload: seq<Byte>, rest: seq<Column>, cursor: nat, s: Slice)
    requires ss != [] && InPayload(ss, |payload|) && ss[0] == s && InPayload(ss[1..], |payload|)
    requires rest == Columns(ss[1..], payload)
    requires Fits(s, cursor, |payload|)
    ensures var c, cols := ColumnAt(s, payload), Columns(ss, payload);
            && cols == [c] + rest && 1 <= |c.name| <= MAX_NAME_LEN
            && Directory(cols, cursor) == WrittenFields(EntryFields(c, cursor)) + Directory(rest, s.valOff + s.valLen)
            && Payload(cols) == c.name + c.value + Payload(rest)
  {
    ColumnSizes(s, payload);
    hide ColumnAt, WrittenFields, EntryFields;
    var cols := Columns(ss, payload);
    assert cols == [ColumnAt(s, payload)] + rest && cols[1..] == rest;
  }

  lemma ColumnSizes(s: Slice, payload: seq<Byte>)
    requires s.nameOff + s.nameLen <= |payload| && s.valOff + s.valLen <= |payload|
    ensures |ColumnAt(s, payload).name| == s.nameLen && |ColumnAt(s, payload).value| == s.valLen
  {
  }

  /** One column of the payload, and the fields that describe it. */
  lemma DirectoryHead(e: Read<seq<nat>>, s: Slice, cursor: nat, payload: seq<Byte>)
    requires e.Got? && |e.item| == 4 && s == SliceOf(e.item) && Fits(s, cursor, |payload|)
    ensures var c := ColumnAt(s, payload);
            EntryFields(c, cursor) == e.item && payload[cursor..] == c.name + c.value + payload[s.valOff + s.valLen..]
  {
  }

  lemma HeaderCanonical(v: seq<Byte>)
    requires HeaderOk(v)
    ensures v[..FIXED_HEADER] == Header(|DirOf(v)|, ReadU32(v[10..14]))
    ensures v == v[..FIXED_HEADER] + DirOf(v) + PayloadOf(v) + v[|v| - 4..]
  {
    hide ReadLittle, Little;
    ReadWritten(v[6..10], 4);
    ReadWritten(v[10..14], 4);
    assert v[6..10][..4] == v[6..10] && v[10..14][..4] == v[10..14];
    assert v[..FIXED_HEADER] == v[..4] + [v[4], v[5]] + v[6..10] + v[10..14];
  }

  /** An accepted frame re-encodes to itself exactly when no directory length is padded. */
  lemma Canonical(v: seq<Byte>, crc: Checksum, cols: seq<Column>)
    requires Decodes(v, crc, cols, Ok)
    ensures Legal(cols) && (Frame(cols, crc) == v <==> UnpaddedDirectory(DirOf(v), ReadU32(v[10..14])))
  {
    hide ReadDirectory, UnpaddedDirectory, Directory, Payload, Header, ReadLittle, Little;
    var dir, pay, sum := DirOf(v), PayloadOf(v), v[|v| - 4..];
    DirectoryCanonical(dir, ReadU32(v[10..14]), 0, pay);
    HeaderCanonical(v);
    assert pay[0..] == pay;
    ReadWritten(sum, 4);
    assert sum[..4] == sum;
    if dir == Directory(cols, 0) {
      assert Body(cols) == v[..|v| - 4];
    }
    if Frame(cols, crc) == v { FrameParts(cols, crc); }
  }

  lemma FieldsStep(b: seq<Byte>, n: nat, x: nat, rest: seq<Byte>, f: seq<nat>, more: seq<Byte>)
    requires n > 0 && ReadField(b, n % 2 == 0) == Got(x, rest) && ReadFields(rest, n - 1) == Got(f, more)
    ensures ReadFields(b, n) == Got([x] + f, more)
  {
  }

  /** A directory entry for a one-byte name whose length is spelled in two bytes. */
  const PADDED: seq<Byte> := [0, 0, 0, 0, 0x81, 0, 1, 0, 0, 0, 0]

  lemma PaddedOffsets()
    ensures ReadField(PADDED, true) == Got(0, PADDED[4..]) && ReadField(PADDED[6..], true) == Got(1, PADDED[10..])
  {
    hide ReadField;
    ZeroBytes(4);
    ZeroBytes(3);
    assert Little(1, 4) == [1] + Little(0, 3);
    FieldRoundTrip(0, true, PADDED[4..]);
    FieldRoundTrip(1, true, PADDED[10..]);
    assert U32(0) + PADDED[4..] == PADDED && U32(1) + PADDED[10..] == PADDED[6..];
  }

  lemma PaddedLengths()
    ensures ReadField(PADDED[4..], false) == Got(1, PADDED[6..]) && ReadField(PADDED[10..], false) == Got(0, [])
  {
    var b: seq<Byte> := PADDED[4..];
    assert b[1..][0] == 0 && Spelled(b[1..], 4) == Some(Parsed(0, 1));
    assert Spelled(b, 5) == Some(Parsed(1, 2)) && b[2..] == PADDED[6..];
    assert PADDED[10..] == [0] && PADDED[10..][1..] == [];
  }

  lemma PaddedEntry()
    ensures ReadFields(PADDED, 4) == Got([0, 1, 1, 0], [])
  {
    hide ReadField, ReadFields;
    PaddedOffsets();
    PaddedLengths();
    NoFields();
    assert [0] + [] == [0] && [1] + [0] == [1, 0] && [1] + [1, 0] == [1, 1, 0] && [0] + [1, 1, 0] == [0, 1, 1, 0];
    FieldsStep(PADDED[10..], 1, 0, [], [], []);
    FieldsStep(PADDED[6..], 2, 1, PADDED[10..], [0], []);
    FieldsStep(PADDED[4..], 3, 1, PADDED[6..], [1, 0], []);
    FieldsStep(PADDED, 4, 0, PADDED[4..], [1, 1, 0], []);
  }

  lemma NoFields()
    ensures ReadFields([], 0) == Got([], [])
  {
  }

  lemma {:induction false} ZeroBytes(n: nat)
    ensures Little(0, n) == seq(n, _ => 0)
  {
    if n == 0 {
    } else {
      ZeroBytes(n - 1);
    }
  }

  lemma {:induction false} OneEntry(dir: seq<Byte>, f: seq<nat>, payLen: nat)
    requires |f| == 4 && ReadFields(dir, 4) == Got(f, []) && Fits(SliceOf(f), 0, payLen) && f[2] + f[3] == payLen
    ensures ReadDirectory(dir, 1, 0, payLen) == Some([SliceOf(f)])
  {
    hide ReadFields;
    ReadStep(dir, f, [], 0, 0, payLen);
    assert [SliceOf(f)] + [] == [SliceOf(f)];
  }

  lemma {:induction false} OnePadded(dir: seq<Byte>)
    requires ReadFields(dir, 4) == Got([0, 1, 1, 0], [])
    ensures ReadDirectory(dir, 1, 0, 1) == Some([Slice(0, 1, 1, 0)])
  {
    hide ReadFields;
    OneEntry(dir, [0, 1, 1, 0], 1);
  }

  lemma PaddedDirectory()
    ensures ReadDirectory(PADDED, 1, 0, 1) == Some([Slice(0, 1, 1, 0)])
  {
    hide ReadFields, ReadDirectory;
    PaddedEntry();
    OnePadded(PADDED);
  }

  /** A sealed frame decodes to the columns its directory names. */
  lemma {:induction false} DecodesTo(dir: seq<Byte>, pay: seq<Byte>, ss: seq<Slice>, cols: seq<Column>, crc: Checksum)
    requires FIXED_HEADER + |dir| + |pay| + 4 <= MAX_BYTES && |ss| <= MAX_COLUMNS && |ss| * MIN_DIR_ENTRY <= |dir|
    requires ReadDirectory(dir, |ss|, 0, |pay|) == Some(ss) && InPayload(ss, |pay|) && Columns(ss, pay) == cols
    requires NamesDiffer(cols, |ss|)
    ensures Decodes(Sealed(Header(|dir|, |ss|) + dir + pay, crc), crc, cols, Ok)
  {
    hide ReadDirectory, HeaderOk, DirOf, PayloadOf, ReadU32, U32, Header, Columns, InPayload, NamesDiffer;
    SealedParts(dir, pay, |ss|, crc(Header(|dir|, |ss|) + dir + pay) % U32_LIMIT);
  }

  lemma {:induction false} OneColumn(s: Slice, payload: seq<Byte>)
    requires s == Slice(0, 1, 1, 0) && |payload| == 1
    ensures InPayload([s], 1) && Columns([s], payload) == [Column(payload, [])]
  {
    assert payload[0..1] == payload && payload[1..1] == [];
  }

  lemma ShortDirectory(c: Column)
    requires |c.name| < 128 && |c.value| < 128
    ensures |Directory([c], 0)| == 10 && |Payload([c])| == |c.name| + |c.value|
  {
    EntryWritten(c, 0);
    assert Directory([c], 0) == DirEntry(c, 0) + [];
    assert Payload([c]) == c.name + c.value + [];
  }

  lemma {:induction false} PaddedDecodes(dir: seq<Byte>, pay: seq<Byte>, s: Slice, crc: Checksum)
    requires 10 <= |dir| <= 11 && |pay| == 1 && s == Slice(0, 1, 1, 0) && ReadDirectory(dir, 1, 0, 1) == Some([s])
    ensures Decodes(Sealed(Header(|dir|, 1) + dir + pay, crc), crc, [Column(pay, [])], Ok)
  {
    hide ReadDirectory, Decodes, Header, Sealed;
    OneColumn(s, pay);
    DecodesTo(dir, pay, [s], [Column(pay, [])], crc);
  }

  /** Frames whose bodies differ in length differ. */
  lemma PaddedDiffers(c: Column, dir: seq<Byte>, pay: seq<Byte>, crc: Checksum)
    requires |c.name| < 128 && |c.value| < 128 && |dir| == 11 && |pay| == |c.name| + |c.value|
    ensures Frame([c], crc) != Sealed(Header(|dir|, 1) + dir + pay, crc)
  {
    hide Directory, Payload, Little;
    ShortDirectory(c);
    assert |Frame([c], crc)| == FIXED_HEADER + 10 + |pay| + 4;
    assert |Sealed(Header(|dir|, 1) + dir + pay, crc)| == FIXED_HEADER + 11 + |pay| + 4;
  }

  /** A padded frame is accepted, and its columns encode to a shorter one. */
  lemma PaddedFrameAccepted(crc: Checksum)
    ensures var cols, body := [Column([65], [])], Header(11, 1) + PADDED + [65];
            Decodes(Sealed(body, crc), crc, cols, Ok) && Frame(cols, crc) != Sealed(body, crc)
  {
    hide ReadDirectory, Decodes, Frame, Header, Sealed;
    PaddedDirectory();
    PaddedDecodes(PADDED, [65], Slice(0, 1, 1, 0), crc);
    PaddedDiffers(Column([65], []), PADDED, [65], crc);
  }
}
