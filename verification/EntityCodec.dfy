/** The entity encoder and decoder as they run, against the frame. */
module EntityCodec {
  import opened Semantics
  import opened Varint
  import opened Duplicates
  import opened Entity

  datatype Encoding = Wrote(bytes: seq<Byte>) | InvalidArgs | TooLarge

  /** What the columns from `i` on add to a frame, their payload starting at `off`. */
  function Cost(cols: seq<Column>, off: nat): nat
  {
    |Directory(cols, off)| + |Payload(cols)|
  }

  lemma CostStep(cols: seq<Column>, off: nat)
    requires cols != []
    ensures var c := cols[0];
            Cost(cols, off) == 8 + |Leb(|c.name|)| + |Leb(|c.value|)| + |c.name| + |c.value| +
                Cost(cols[1..], off + |c.name| + |c.value|)
  {
    hide WrittenFields;
    EntryWritten(cols[0], off);
  }

  lemma {:induction false} CostAppend(cols: seq<Column>, c: Column, off: nat)
    ensures Cost(cols + [c], off) == Cost(cols, off) + 8 + |Leb(|c.name|)| + |Leb(|c.value|)| + |c.name| + |c.value|
    decreases |cols|
  {
    hide Cost, Leb;
    CostStep(cols + [c], off);
    if cols == [] {
      assert ([] + [c])[1..] == [] && ([] + [c])[0] == c;
      NoCost(off);
      NoCost(off + |c.name| + |c.value|);
    } else {
      assert (cols + [c])[1..] == cols[1..] + [c] && (cols + [c])[0] == cols[0];
      CostStep(cols, off);
      CostAppend(cols[1..], c, off + |cols[0].name| + |cols[0].value|);
    }
  }

  /** Some columns with good names already overflow a frame. */
  ghost predicate Overflows(cols: seq<Column>)
  {
    exists n: nat :: n <= |cols| && PrefixOverflows(cols, n)
  }

  ghost predicate PrefixOverflows(cols: seq<Column>, n: nat)
    requires n <= |cols|
  {
    NamesFit(cols[..n]) && FIXED_HEADER + 4 + Cost(cols[..n], 0) > MAX_BYTES
  }

  /** Check the column set and size its frame. */
  method Measure(cols: seq<Column>) returns (r: Encoding)
    ensures r.Wrote? <==> |cols| <= MAX_COLUMNS && NamesFit(cols) && FIXED_HEADER + 4 + Cost(cols, 0) <= MAX_BYTES
    ensures r.TooLarge? <==> |cols| <= MAX_COLUMNS && Overflows(cols)
  {
    hide Cost, Leb;
    if |cols| > MAX_COLUMNS { return InvalidArgs; }
    var total: nat := FIXED_HEADER + 4;
    NoCost(0);
    var i := 0;
    while i < |cols|
      invariant 0 <= i <= |cols| && NamesFit(cols[..i]) && total == FIXED_HEADER + 4 + Cost(cols[..i], 0)
      invariant forall n: nat :: n <= i ==> !PrefixOverflows(cols, n)
    {
      var n := |cols[i].name|;
      if n == 0 || n > MAX_NAME_LEN {
        assert forall m: nat :: i < m <= |cols| ==> cols[..m][i] == cols[i];
        return InvalidArgs;
      }
      var v := |cols[i].value|;
      CostAppend(cols[..i], cols[i], 0);
      assert cols[..i + 1] == cols[..i] + [cols[i]];
      var nl := UvarintLen(n);
      var vl := UvarintLen(v);
      total := total + 4 + nl + 4 + vl + n + v;
      if total > MAX_BYTES {
        assert PrefixOverflows(cols, i + 1);
        CostGrows(cols, i + 1);
        return TooLarge;
      }
      i := i + 1;
    }
    assert cols[..|cols|] == cols;
    assert !PrefixOverflows(cols, |cols|);
    return Wrote([]);
  }

  /** A frame is at least as long as the frame of fewer columns. */
  lemma {:induction false} CostGrows(cols: seq<Column>, n: nat)
    requires n <= |cols|
    ensures Cost(cols[..n], 0) <= Cost(cols, 0)
    decreases |cols| - n
  {
    hide Cost, Leb;
    if n == |cols| {
      assert cols[..n] == cols;
    } else {
      CostAppend(cols[..n], cols[n], 0);
      assert cols[..n + 1] == cols[..n] + [cols[n]];
      CostGrows(cols, n + 1);
    }
  }

  lemma NoCost(off: nat)
    ensures Cost([], off) == 0
  {
  }

  lemma DirectoryCons(cols: seq<Column>, off: nat)
    requires cols != []
    ensures var c := cols[0];
            Directory(cols, off) == U32(off) + Leb(|c.name|) + U32(off + |c.name|) + Leb(|c.value|) +
                Directory(cols[1..], off + |c.name| + |c.value|)
    ensures Payload(cols) == cols[0].name + cols[0].value + Payload(cols[1..])
  {
    hide WrittenFields;
    EntryWritten(cols[0], off);
  }

  lemma {:induction false} DirectoryNil(off: nat)
    ensures Directory([], off) == [] && Payload([]) == []
  {
  }

  /** Append the directory. */
  method AppendDirectory(head: seq<Byte>, cols: seq<Column>) returns (buf: seq<Byte>)
    ensures buf == head + Directory(cols, 0)
  {
    hide Directory, Payload, U32;
    buf := head;
    var payLen: nat, i := 0, 0;
    while i < |cols|
      invariant 0 <= i <= |cols| && buf + Directory(cols[i..], payLen) == head + Directory(cols, 0)
    {
      var c := cols[i];
      DirectoryCons(cols[i..], payLen);
      assert cols[i..][1..] == cols[i + 1..];
      ghost var more := Directory(cols[i + 1..], payLen + |c.name| + |c.value|);
      ghost var b0, w1, w2, w3, w4 := buf, U32(payLen), Leb(|c.name|), U32(payLen + |c.name|), Leb(|c.value|);
      buf := buf + U32(payLen);
      buf := AppendUvarint(buf, |c.name|);
      payLen := payLen + |c.name|;
      buf := buf + U32(payLen);
      buf := AppendUvarint(buf, |c.value|);
      payLen := payLen + |c.value|;
      Flatten(b0, w1, w2, w3, w4, more);
      i := i + 1;
    }
    assert cols[|cols|..] == [];
    DirectoryNil(payLen);
    assert buf + [] == buf;
  }

  lemma Flatten(b: seq<Byte>, w1: seq<Byte>, w2: seq<Byte>, w3: seq<Byte>, w4: seq<Byte>, more: seq<Byte>)
    ensures b + (w1 + w2 + w3 + w4 + more) == b + w1 + w2 + w3 + w4 + more
  {
  }

  method AppendPayload(head: seq<Byte>, cols: seq<Column>) returns (buf: seq<Byte>)
    ensures buf == head + Payload(cols)
  {
    hide Directory, Payload;
    buf := head;
    var i := 0;
    while i < |cols|
      invariant 0 <= i <= |cols| && buf + Payload(cols[i..]) == head + Payload(cols)
    {
      DirectoryCons(cols[i..], 0);
      assert cols[i..][1..] == cols[i + 1..];
      assert buf + (cols[i].name + cols[i].value + Payload(cols[i + 1..])) == buf + cols[i].name + cols[i].value +
          Payload(cols[i + 1..]);
      buf := buf + cols[i].name + cols[i].value;
      i := i + 1;
    }
    assert cols[|cols|..] == [];
    DirectoryNil(0);
    assert buf + [] == buf;
  }

  /** `encode_entity`: exactly the legal column sets have a frame. */
  method EncodeEntity(cols: seq<Column>, crc: Checksum, hash: seq<Byte> -> nat) returns (r: Encoding)
    ensures r.Wrote? <==> Legal(cols)
    ensures r.Wrote? ==> r.bytes == Frame(cols, crc)
    ensures r.TooLarge? <==> |cols| <= MAX_COLUMNS && Overflows(cols)
  {
    hide Directory, Payload, U32;
    r := Measure(cols);
    if !r.Wrote? { return; }
    var repeat := FindDuplicate(cols, hash);
    if repeat.Some? { return InvalidArgs; }
    var blank: seq<Byte> := MAGIC + [VERSION, 0] + [0, 0, 0, 0, 0, 0, 0, 0];
    var buf := AppendDirectory(blank, cols);
    var headerLen := |buf|;
    buf := buf[..6] + U32(headerLen) + U32(|cols|) + buf[14..];
    assert buf == Header(|Directory(cols, 0)|, |cols|) + Directory(cols, 0);
    buf := AppendPayload(buf, cols);
    buf := buf + U32(crc(buf) % U32_LIMIT);
    return Wrote(buf);
  }

  // ---- decoding -------------------------------------------------------------------------------

  function After(done: seq<Slice>, rest: Option<seq<Slice>>): Option<seq<Slice>>
  {
    if rest.None? then None else Some(done + rest.value)
  }

  lemma ReadOne(dir: seq<Byte>, count: nat, cursor: nat, payLen: nat, done: seq<Slice>)
    requires count > 0
    ensures var e := ReadFields(dir, 4);
            After(done, ReadDirectory(dir, count, cursor, payLen)) ==
            if e.Fail? || !Fits(SliceOf(e.item), cursor, payLen) then None
            else After(done + [SliceOf(e.item)],
                ReadDirectory(e.rest, count - 1, SliceOf(e.item).valOff + SliceOf(e.item).valLen, payLen))
  {
    hide ReadFields;
    var e := ReadFields(dir, 4);
    if e.Got? && Fits(SliceOf(e.item), cursor, payLen) {
      var rest := ReadDirectory(e.rest, count - 1, SliceOf(e.item).valOff + SliceOf(e.item).valLen, payLen);
      if rest.Some? { assert done + ([SliceOf(e.item)] + rest.value) == (done + [SliceOf(e.item)]) + rest.value; }
    }
  }

  /** First pass: every region is packed, in order, and the payload is covered. */
  method Validate(dir: seq<Byte>, count: nat, payLen: nat) returns (ok: bool)
    ensures ok <==> ReadDirectory(dir, count, 0, payLen).Some?
  {
    hide ReadFields;
    var cursor: nat, i: nat, rest := 0, 0, dir;
    ghost var done: seq<Slice> := [];
    StartRead(ReadDirectory(dir, count, 0, payLen));
    while i < count
      invariant 0 <= i <= count
      invariant ReadDirectory(dir, count, 0, payLen) == After(done, ReadDirectory(rest, count - i, cursor, payLen))
    {
      ReadOne(rest, count - i, cursor, payLen, done);
      var e := ReadFields(rest, 4);
      if e.Fail? || !Fits(SliceOf(e.item), cursor, payLen) { return false; }
      done := done + [SliceOf(e.item)];
      cursor, rest, i := SliceOf(e.item).valOff + SliceOf(e.item).valLen, e.rest, i + 1;
    }
    return rest == [] && cursor == payLen;
  }

  lemma StartRead(r: Option<seq<Slice>>)
    ensures After([], r) == r
  {
    if r.Some? { assert [] + r.value == r.value; }
  }

  lemma {:induction false} ColumnsSnoc(ss: seq<Slice>, s: Slice, payload: seq<Byte>)
    requires InPayload(ss, |payload|) && s.nameOff + s.nameLen <= |payload| && s.valOff + s.valLen <= |payload|
    ensures InPayload(ss + [s], |payload|)
    ensures Columns(ss + [s], payload) == Columns(ss, payload) + [ColumnAt(s, payload)]
  {
    if ss == [] {
    } else {
      assert (ss + [s])[1..] == ss[1..] + [s] && (ss + [s])[0] == ss[0];
      ColumnsSnoc(ss[1..], s, payload);
    }
  }

  /** Second pass: push the columns the first pass proved in bounds. */
  method PushColumns(dst: seq<Column>, dir: seq<Byte>, count: nat, payload: seq<Byte>) returns (out: seq<Column>)
    requires ReadDirectory(dir, count, 0, |payload|).Some?
    ensures var ss := ReadDirectory(dir, count, 0, |payload|).value;
            InPayload(ss, |payload|) && out == dst + Columns(ss, payload)
  {
    hide ReadFields, Columns, ColumnAt;
    out := dst;
    var cursor: nat, i: nat, rest := 0, 0, dir;
    ghost var ss, done: seq<Slice> := ReadDirectory(dir, count, 0, |payload|).value, [];
    StartRead(ReadDirectory(dir, count, 0, |payload|));
    DirectoryInPayload(dir, count, 0, |payload|);
    NoColumns(payload);
    assert dst + [] == dst;
    while i < count
      invariant 0 <= i <= count && Some(ss) == After(done, ReadDirectory(rest, count - i, cursor, |payload|))
      invariant InPayload(done, |payload|) && out == dst + Columns(done, payload)
    {
      ReadOne(rest, count - i, cursor, |payload|, done);
      var e := ReadFields(rest, 4);
      var s := SliceOf(e.item);
      ColumnsSnoc(done, s, payload);
      out := out + [ColumnAt(s, payload)];
      done := done + [s];
      cursor, rest, i := s.valOff + s.valLen, e.rest, i + 1;
    }
    assert done + [] == done;
  }

  lemma {:induction false} NoColumns(payload: seq<Byte>)
    ensures Columns([], payload) == []
  {
  }

  /** `decode_entity_into`: appends the columns of a frame, or leaves `dst` as it was. */
  method DecodeEntityInto(dst: seq<Column>, v: seq<Byte>, crc: Checksum, hash: seq<Byte> -> nat)
    returns (out: seq<Column>, status: Status, ghost cols: seq<Column>)
    ensures Decodes(v, crc, cols, status) && out == dst + cols
    ensures status != Ok ==> out == dst
  {
    hide ReadDirectory, Columns;
    cols := [];
    assert dst + [] == dst;
    if !HeaderOk(v) { return dst, NotEntity, []; }
    var dir, payload, count := DirOf(v), PayloadOf(v), ReadU32(v[10..14]);
    var ok := Validate(dir, count, |payload|);
    if !ok { return dst, NotEntity, []; }
    out := PushColumns(dst, dir, count, payload);
    ghost var ss := ReadDirectory(dir, count, 0, |payload|).value;
    var pushed := out[|dst|..];
    assert pushed == Columns(ss, payload);
    var repeat := FindDuplicate(pushed, hash);
    if repeat.Some? {
      assert out[..|dst|] == dst;
      return out[..|dst|], NotEntity, [];
    }
    if ReadU32(v[|v| - 4..]) != crc(v[..|v| - 4]) % U32_LIMIT {
      assert out[..|dst|] == dst;
      return out[..|dst|], Corruption, [];
    }
    return out, Ok, pushed;
  }
}
