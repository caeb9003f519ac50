/**
 * The stored-ZIP writer and reader of tools/check-client-project-export.swift: local
 * headers, central directory and end record as sections 4.3.7, 4.3.12 and 4.3.16 of the
 * PKWARE APPNOTE.TXT lay them out, and the CRC-32 of each body.
 */
module StoredZip {
  import opened Outcomes
  import opened LittleEndian

  /** `path` is the name in UTF-8. */
  datatype Entry = Entry(path: seq<Byte>, body: seq<Byte>)

  // CRC-32. Registers are 32-bit words, written as their values.

  type Word = n: nat | n < U32_LIMIT

  const TOP: nat := 0x8000_0000
  const POLYNOMIAL: Word := 0xedb8_8320
  const ONES: Word := 0xffff_ffff

  function Xor(a: nat, b: nat): nat
    decreases a + b
  {
    if a == 0 && b == 0 then 0
    else 2 * Xor(a / 2, b / 2) + if a % 2 == b % 2 then 0 else 1
  }

  lemma {:induction false} XorCancels(a: nat, b: nat)
    ensures Xor(Xor(a, b), b) == a
    decreases a + b
  {
    if a != 0 || b != 0 {
      XorCancels(a / 2, b / 2);
      var x := Xor(a, b);
      assert x / 2 == Xor(a / 2, b / 2);
    }
  }

  lemma {:induction false} XorCommutes(a: nat, b: nat)
    ensures Xor(a, b) == Xor(b, a)
    decreases a + b
  {
    if a != 0 || b != 0 {
      XorCommutes(a / 2, b / 2);
    }
  }

  lemma SameXorSame(a: nat, b: nat, c: nat)
    requires Xor(a, c) == Xor(b, c)
    ensures a == b
  {
    XorCancels(a, c);
    XorCancels(b, c);
  }

  function Power2(n: nat): (p: nat)
    ensures p > 0
  {
    if n == 0 then 1 else 2 * Power2(n - 1)
  }

  lemma {:induction false} XorFits(a: nat, b: nat, width: nat)
    requires a < Power2(width) && b < Power2(width)
    ensures Xor(a, b) < Power2(width)
    decreases width
  {
    if width > 0 {
      XorFits(a / 2, b / 2, width - 1);
    }
  }

  /** The top bit of a sum of two words is set when it is set in exactly one of them. */
  lemma {:induction false} XorTop(a: nat, b: nat, width: nat)
    requires a < 2 * Power2(width) && b < 2 * Power2(width)
    ensures Xor(a, b) >= Power2(width) <==> ((a >= Power2(width)) != (b >= Power2(width)))
    decreases width
  {
    if width > 0 {
      XorTop(a / 2, b / 2, width - 1);
    }
  }

  lemma WordPowers()
    ensures Power2(31) == TOP && Power2(32) == U32_LIMIT
  {
    assert Power2(8) == 256 by { assert Power2(4) == 16; }
    assert Power2(16) == 0x1_0000 by { assert Power2(12) == 0x1000; }
    assert Power2(24) == 0x100_0000 by { assert Power2(20) == 0x10_0000; }
    assert Power2(28) == 0x1000_0000;
    assert Power2(32) == U32_LIMIT;
  }

  /** One bit: shift right, and add the polynomial when a one falls out. */
  function Shift(c: Word): Word {
    WordPowers();
    XorFits(c / 2, POLYNOMIAL, 32);
    XorFits(c / 2, 0, 32);
    Xor(c / 2, if c % 2 == 1 then POLYNOMIAL else 0)
  }

  /** The polynomial has the top bit and c / 2 has not, so the top bit tells what fell out. */
  lemma ShiftsTop(c: Word)
    ensures Shift(c) >= TOP <==> c % 2 == 1
  {
    WordPowers();
    XorTop(c / 2, if c % 2 == 1 then POLYNOMIAL else 0, 31);
  }

  function Unshift(c: Word): Word {
    WordPowers();
    XorTop(c, POLYNOMIAL, 31);
    if c < TOP then 2 * c else 2 * Xor(c, POLYNOMIAL) + 1
  }

  lemma UnshiftOfShift(c: Word)
    ensures Unshift(Shift(c)) == c
  {
    ShiftsTop(c);
    XorCancels(c / 2, POLYNOMIAL);
    XorZero(c / 2);
    hide Xor, Power2;
  }

  lemma ShiftOfUnshift(c: Word)
    ensures Shift(Unshift(c)) == c
  {
    var u := Unshift(c);
    XorZero(c);
    XorCancels(c, POLYNOMIAL);
    hide Xor, Power2;
    if c < TOP {
      assert u == 2 * c && u / 2 == c && u % 2 == 0;
    } else {
      assert u == 2 * Xor(c, POLYNOMIAL) + 1 && u / 2 == Xor(c, POLYNOMIAL) && u % 2 == 1;
    }
  }

  lemma ShiftIsABijection(c: Word)
    ensures Unshift(Shift(c)) == c && Shift(Unshift(c)) == c
  {
    UnshiftOfShift(c);
    ShiftOfUnshift(c);
    hide Shift, Unshift;
  }

  lemma {:induction false} XorZero(a: nat)
    ensures Xor(a, 0) == a
  {
    if a > 0 {
      XorZero(a / 2);
    }
  }

  function Shifts(c: Word, n: nat): Word { if n == 0 then c else Shift(Shifts(c, n - 1)) }

  function Added(c: Word, byte: Byte): Word {
    WordPowers();
    XorFits(c, byte, 32);
    Xor(c, byte)
  }

  function Register(body: seq<Byte>): Word
    decreases |body|
  {
    if body == [] then ONES else Shifts(Added(Register(body[..|body| - 1]), body[|body| - 1]), 8)
  }

  function Crc32(body: seq<Byte>): Word {
    WordPowers();
    XorFits(Register(body), ONES, 32);
    Xor(Register(body), ONES)
  }

  lemma {:induction false} ShiftsAreInjective(a: Word, b: Word, n: nat)
    requires Shifts(a, n) == Shifts(b, n)
    ensures a == b
    decreases n
  {
    hide Shift, Unshift;
    if n > 0 {
      ShiftIsABijection(Shifts(a, n - 1));
      ShiftIsABijection(Shifts(b, n - 1));
      ShiftsAreInjective(a, b, n - 1);
    }
  }

  /** Different registers stay different, whatever is fed. */
  lemma {:induction false} FeedingKeepsApart(a: seq<Byte>, b: seq<Byte>, rest: seq<Byte>)
    requires Register(a + rest) == Register(b + rest)
    ensures Register(a) == Register(b)
    decreases |rest|
  {
    hide Shifts, Xor;
    if rest == [] {
      assert a + rest == a && b + rest == b;
    } else {
      var front, last := rest[..|rest| - 1], rest[|rest| - 1];
      assert (a + rest)[..|a + rest| - 1] == a + front && (b + rest)[..|b + rest| - 1] == b + front;
      ShiftsAreInjective(Added(Register(a + front), last), Added(Register(b + front), last), 8);
      SameXorSame(Register(a + front), Register(b + front), last);
      FeedingKeepsApart(a, b, front);
    }
  }

  /** Changing one byte of a body changes its checksum. */
  lemma OneByteChangesTheChecksum(body: seq<Byte>, i: nat, byte: Byte)
    requires i < |body| && body[i] != byte
    ensures Crc32(body[i := byte]) != Crc32(body)
  {
    hide Shifts, Xor;
    var front, rest := body[..i], body[i + 1..];
    assert body == front + [body[i]] + rest && body[i := byte] == front + [byte] + rest;
    if Crc32(body[i := byte]) == Crc32(body) {
      SameXorSame(Register(body[i := byte]), Register(body), ONES);
      FeedingKeepsApart(front + [body[i]], front + [byte], rest);
      assert (front + [body[i]])[..i] == front && (front + [byte])[..i] == front;
      ShiftsAreInjective(Added(Register(front), body[i]), Added(Register(front), byte), 8);
      XorCommutes(Register(front), body[i]);
      XorCommutes(Register(front), byte);
      SameXorSame(body[i], byte, Register(front));
    }
  }

  method Checksum(body: seq<Byte>) returns (checksum: Word)
    ensures checksum == Crc32(body)
  {
    checksum := ONES;
    for i := 0 to |body|
      invariant checksum == Register(body[..i])
    {
      hide Shift, Xor;
      assert body[..i + 1][..i] == body[..i];
      ghost var fed := Added(checksum, body[i]);
      checksum := Added(checksum, body[i]);
      for bit := 0 to 8
        invariant checksum == Shifts(fed, bit)
      {
        checksum := Shift(checksum);
      }
    }
    assert body[..|body|] == body;
    WordPowers();
    XorFits(checksum, ONES, 32);
    checksum := Xor(checksum, ONES);
  }

  // Headers: a zeroed block and a table of little-endian fields.

  datatype Field = Field(offset: nat, value: nat, width: nat)

  predicate Inside(f: Field, length: nat) { f.offset + f.width <= length }

  predicate Apart(f: Field, g: Field) { f.offset + f.width <= g.offset || g.offset + g.width <= f.offset }

  /** Fields of a table do not overlap. */
  ghost predicate Table(fields: seq<Field>, length: nat) {
    && (forall i | 0 <= i < |fields| :: Inside(fields[i], length))
    && forall i, j | 0 <= i < j < |fields| :: Apart(fields[i], fields[j])
  }

  function Zeros(length: nat): seq<Byte> { seq(length, i => 0) }

  function Put(bytes: seq<Byte>, f: Field): (r: seq<Byte>)
    requires Inside(f, |bytes|)
    ensures |r| == |bytes|
  {
    bytes[..f.offset] + Digits(f.value, f.width) + bytes[f.offset + f.width..]
  }

  function Fill(bytes: seq<Byte>, fields: seq<Field>): (r: seq<Byte>)
    requires forall f | f in fields :: Inside(f, |bytes|)
    ensures |r| == |bytes|
    decreases |fields|
  {
    if fields == [] then bytes else Put(Fill(bytes, fields[..|fields| - 1]), fields[|fields| - 1])
  }

  lemma PutSlots(bytes: seq<Byte>, f: Field, g: Field)
    requires Inside(f, |bytes|) && Inside(g, |bytes|)
    ensures Put(bytes, f)[f.offset..f.offset + f.width] == Digits(f.value, f.width)
    ensures Apart(f, g) ==>
      Put(bytes, f)[g.offset..g.offset + g.width] == bytes[g.offset..g.offset + g.width]
  {
  }

  /** Every field of a table can be read back where it was put. */
  lemma {:induction false} SlotOf(bytes: seq<Byte>, fields: seq<Field>, k: nat)
    requires Table(fields, |bytes|) && k < |fields|
    ensures var f := fields[k]; Fill(bytes, fields)[f.offset..f.offset + f.width] == Digits(f.value, f.width)
    decreases |fields|
  {
    var n := |fields| - 1;
    var front := fields[..n];
    PutSlots(Fill(bytes, front), fields[n], fields[k]);
    if k < n {
      assert front[k] == fields[k] && Apart(fields[k], fields[n]);
      SlotOf(bytes, front, k);
    }
  }

  function LocalFields(e: Entry): seq<Field> {
    [Field(0, 0x04034b50, 4), Field(4, 20, 2), Field(6, 0x800, 2), Field(12, 33, 2), Field(14, Crc32(e.body), 4),
     Field(18, |e.body|, 4), Field(22, |e.body|, 4), Field(26, |e.path|, 2)]
  }

  function CentralFields(e: Entry, offset: nat): seq<Field> {
    [Field(0, 0x02014b50, 4), Field(4, 20, 2), Field(6, 20, 2), Field(8, 0x800, 2), Field(14, 33, 2),
     Field(16, Crc32(e.body), 4), Field(20, |e.body|, 4), Field(24, |e.body|, 4), Field(28, |e.path|, 2),
     Field(42, offset, 4)]
  }

  function EndFields(count: nat, size: nat, offset: nat): seq<Field> {
    [Field(0, 0x06054b50, 4), Field(8, count, 2), Field(10, count, 2), Field(12, size, 4), Field(16, offset, 4)]
  }

  function LocalHeader(e: Entry): (r: seq<Byte>)
    ensures |r| == 30
  {
    Fill(Zeros(30), LocalFields(e))
  }

  function CentralHeader(e: Entry, offset: nat): (r: seq<Byte>)
    ensures |r| == 46
  {
    Fill(Zeros(46), CentralFields(e, offset))
  }

  function EndRecord(count: nat, size: nat, offset: nat): (r: seq<Byte>)
    ensures |r| == 22
  {
    Fill(Zeros(22), EndFields(count, size, offset))
  }

  function Local(e: Entry): seq<Byte> { LocalHeader(e) + e.path + e.body }

  function Locals(es: seq<Entry>): seq<Byte>
    decreases |es|
  {
    if es == [] then [] else Locals(es[..|es| - 1]) + Local(es[|es| - 1])
  }

  function Central(es: seq<Entry>, k: nat): seq<Byte>
    requires k < |es|
  {
    CentralHeader(es[k], |Locals(es[..k])|) + es[k].path
  }

  function Directory(es: seq<Entry>, k: nat): seq<Byte>
    requires k <= |es|
  {
    if k == 0 then [] else Directory(es, k - 1) + Central(es, k - 1)
  }

  function Archive(es: seq<Entry>): seq<Byte> {
    var locals, directory := Locals(es), Directory(es, |es|);
    locals + directory + EndRecord(|es|, |directory|, |locals|)
  }

  // The writer.

  method Block(length: nat, fields: seq<Field>) returns (block: seq<Byte>)
    requires forall f | f in fields :: Inside(f, length)
    ensures block == Fill(Zeros(length), fields)
  {
    var bytes := new Byte[length](i => 0);
    assert bytes[..] == Zeros(length);
    for i := 0 to |fields|
      invariant bytes[..] == Fill(Zeros(length), fields[..i])
    {
      assert fields[..i + 1][..i] == fields[..i];
      assert fields[i] in fields;
      WriteLe(bytes, fields[i].offset, fields[i].width, fields[i].value);
    }
    assert fields[..|fields|] == fields;
    block := bytes[..];
  }

  method Zip(es: seq<Entry>) returns (archive: seq<Byte>)
    ensures archive == Archive(es)
  {
    hide Fill, Crc32;
    var locals, directory := [], [];
    for i := 0 to |es|
      invariant locals == Locals(es[..i])
      invariant directory == Directory(es, i)
    {
      var e := es[i];
      assert es[..i + 1][..i] == es[..i];
      var checksum := Checksum(e.body);
      var local := Block(30, [Field(0, 0x04034b50, 4), Field(4, 20, 2), Field(6, 0x800, 2), Field(12, 33, 2),
                              Field(14, checksum, 4), Field(18, |e.body|, 4), Field(22, |e.body|, 4),
                              Field(26, |e.path|, 2)]);
      local := local + e.path + e.body;
      var central := Block(46, [Field(0, 0x02014b50, 4), Field(4, 20, 2), Field(6, 20, 2), Field(8, 0x800, 2),
                                Field(14, 33, 2), Field(16, checksum, 4), Field(20, |e.body|, 4),
                                Field(24, |e.body|, 4), Field(28, |e.path|, 2), Field(42, |locals|, 4)]);
      central := central + e.path;
      locals := locals + local;
      directory := directory + central;
    }
    assert es[..|es|] == es;
    var end := Block(22, [Field(0, 0x06054b50, 4), Field(8, |es|, 2), Field(10, |es|, 2),
                          Field(12, |directory|, 4), Field(16, |locals|, 4)]);
    archive := locals + directory + end;
  }

  // The reader. An index outside the archive stops the program: None.

  datatype Read = Read(entries: seq<Entry>, cursor: nat)

  function EntryAt(data: seq<Byte>, cursor: nat): Option<Read> {
    if cursor + 30 > |data| then None
    else
      var size, length := Number(data[cursor + 18..cursor + 22]), Number(data[cursor + 26..cursor + 28]);
      var start := cursor + 30 + length;
      if start + size > |data| then None
      else Some(Read([Entry(data[cursor + 30..start], data[start..start + size])], start + size))
  }

  function ReadUpTo(data: seq<Byte>, n: nat): Option<Read>
    decreases n
  {
    if n == 0 then Some(Read([], 0))
    else match ReadUpTo(data, n - 1)
      case None => None
      case Some(front) => match EntryAt(data, front.cursor)
        case None => None
        case Some(next) => Some(Read(front.entries + next.entries, next.cursor))
  }

  method NextEntry(data: seq<Byte>, cursor: nat) returns (next: Option<Read>)
    ensures next == EntryAt(data, cursor)
  {
    if cursor + 30 > |data| {
      return None;
    }
    var size := ReadLe(data, cursor + 18, 4);
    var length := ReadLe(data, cursor + 26, 2);
    var start := cursor + 30 + length;
    if start + size > |data| {
      return None;
    }
    return Some(Read([Entry(data[cursor + 30..start], data[start..start + size])], start + size));
  }

  method Entries(data: seq<Byte>) returns (r: Option<seq<Entry>>)
    ensures |data| < 14 ==> r == None
    ensures |data| >= 14 ==>
      var read := ReadUpTo(data, Number(data[|data| - 14..|data| - 12]));
      r == if read == None then None else Some(read.value.entries)
  {
    hide EntryAt;
    if |data| < 14 {
      return None;
    }
    var count := ReadLe(data, |data| - 14, 2);
    var result: seq<Entry> := [];
    var cursor: nat := 0;
    for i := 0 to count
      invariant ReadUpTo(data, i) == Some(Read(result, cursor))
    {
      FailureStays(data, i + 1, count);
      var next := NextEntry(data, cursor);
      if next == None {
        return None;
      }
      result := result + next.value.entries;
      cursor := next.value.cursor;
    }
    return Some(result);
  }

  lemma {:induction false} FailureStays(data: seq<Byte>, n: nat, more: nat)
    requires n <= more
    ensures ReadUpTo(data, n) == None ==> ReadUpTo(data, more) == None
    decreases more
  {
    if n < more {
      FailureStays(data, n, more - 1);
    }
  }

  /** What the fields of a local header can hold. */
  predicate Fits(e: Entry) { |e.path| < U16_LIMIT && |e.body| < U32_LIMIT }

  lemma SlotValue(length: nat, fields: seq<Field>, k: nat)
    requires Table(fields, length) && k < |fields|
    ensures var f := fields[k];
            Number(Fill(Zeros(length), fields)[f.offset..f.offset + f.width]) == f.value % Power256(f.width)
  {
    SlotOf(Zeros(length), fields, k);
    ReadOfWrite(fields[k].value, fields[k].width);
  }

  lemma LocalSizes(e: Entry)
    ensures Number(LocalHeader(e)[18..22]) == |e.body| % U32_LIMIT
    ensures Number(LocalHeader(e)[26..28]) == |e.path| % U16_LIMIT
  {
    hide Fill, Crc32;
    Powers();
    SlotValue(30, LocalFields(e), 5);
    SlotValue(30, LocalFields(e), 7);
  }

  lemma FieldOf(header: seq<Byte>, before: seq<Byte>, rest: seq<Byte>, from: nat, to: nat)
    requires from <= to <= |header|
    ensures (before + header + rest)[|before| + from..|before| + to] == header[from..to]
  {
  }

  lemma PartsOf(before: seq<Byte>, header: seq<Byte>, path: seq<Byte>, body: seq<Byte>, rest: seq<Byte>)
    requires |header| == 30
    ensures var data, start := before + (header + path + body) + rest, |before| + 30 + |path|;
            && data[|before| + 18..|before| + 22] == header[18..22]
            && data[|before| + 26..|before| + 28] == header[26..28]
            && data[|before| + 30..start] == path && data[start..start + |body|] == body
  {
  }

  /** An entry that fits is read back from where its local header starts. */
  lemma EntryReadsBack(before: seq<Byte>, e: Entry, rest: seq<Byte>)
    requires Fits(e)
    ensures EntryAt(before + Local(e) + rest, |before|) == Some(Read([e], |before| + |Local(e)|))
  {
    hide LocalHeader, Number;
    LocalSizes(e);
    SmallModulo(|e.body|, U32_LIMIT);
    SmallModulo(|e.path|, U16_LIMIT);
    PartsOf(before, LocalHeader(e), e.path, e.body, rest);
  }

  lemma {:induction false} LocalsPrefix(es: seq<Entry>, n: nat)
    requires n <= |es|
    ensures Locals(es[..n]) <= Locals(es)
    decreases |es|
  {
    if n < |es| {
      LocalsPrefix(es[..|es| - 1], n);
      assert es[..|es| - 1][..n] == es[..n];
    } else {
      assert es[..n] == es;
    }
  }

  lemma {:induction false} LocalsReadBack(es: seq<Entry>, rest: seq<Byte>, n: nat)
    requires n <= |es| && forall i | 0 <= i < n :: Fits(es[i])
    ensures ReadUpTo(Locals(es) + rest, n) == Some(Read(es[..n], |Locals(es[..n])|))
    decreases n
  {
    hide Local, EntryAt;
    if n > 0 {
      LocalsReadBack(es, rest, n - 1);
      LocalsPrefix(es, n);
      assert es[..n][..n - 1] == es[..n - 1];
      hide Fits;
      var before, all := Locals(es[..n - 1]), Locals(es) + rest;
      assert Locals(es[..n]) == before + Local(es[n - 1]);
      assert all == before + Local(es[n - 1]) + all[|Locals(es[..n])|..];
      EntryReadsBack(before, es[n - 1], all[|Locals(es[..n])|..]);
      assert es[..n] == es[..n - 1] + [es[n - 1]];
    }
  }

  lemma {:induction false} ReadEntriesFit(data: seq<Byte>, n: nat)
    ensures var read := ReadUpTo(data, n);
            read.Some? ==> |read.value.entries| == n && forall e | e in read.value.entries :: Fits(e)
    decreases n
  {
    if n > 0 && ReadUpTo(data, n).Some? {
      ReadEntriesFit(data, n - 1);
      var cursor := ReadUpTo(data, n - 1).value.cursor;
      NumberBound(data[cursor + 18..cursor + 22]);
      NumberBound(data[cursor + 26..cursor + 28]);
      Powers();
    }
  }

  lemma EndFieldsRead(count: nat, size: nat, offset: nat)
    ensures Number(EndRecord(count, size, offset)[8..10]) == count % U16_LIMIT
    ensures Number(EndRecord(count, size, offset)[12..16]) == size % U32_LIMIT
    ensures Number(EndRecord(count, size, offset)[16..20]) == offset % U32_LIMIT
  {
    hide Fill;
    Powers();
    SlotValue(22, EndFields(count, size, offset), 1);
    SlotValue(22, EndFields(count, size, offset), 3);
    SlotValue(22, EndFields(count, size, offset), 4);
  }

  /** What `Entries` returns for an archive. */
  ghost function ReadBack(es: seq<Entry>): Option<seq<Entry>> {
    var archive := Archive(es);
    var read := ReadUpTo(archive, Number(archive[|archive| - 14..|archive| - 12]));
    if read == None then None else Some(read.value.entries)
  }

  lemma EndSlices(front: seq<Byte>, end: seq<Byte>, from: nat, to: nat)
    requires from <= to <= |end|
    ensures var archive := front + end;
            archive[|archive| - |end| + from..|archive| - |end| + to] == end[from..to]
  {
  }

  lemma CountIsRead(es: seq<Entry>)
    ensures var archive := Archive(es);
            |archive| >= 22 && Number(archive[|archive| - 14..|archive| - 12]) == |es| % U16_LIMIT
  {
    hide EndRecord, Locals, Directory, Number;
    var locals, directory := Locals(es), Directory(es, |es|);
    EndFieldsRead(|es|, |directory|, |locals|);
    EndSlices(locals + directory, EndRecord(|es|, |directory|, |locals|), 8, 10);
  }

  lemma {:induction false} ArchiveReadsBack(es: seq<Entry>)
    requires forall i | 0 <= i < |es| :: Fits(es[i])
    ensures ReadUpTo(Archive(es), |es|) == Some(Read(es, |Locals(es)|))
  {
    hide EndRecord, Locals, Directory, ReadUpTo;
    var locals, directory := Locals(es), Directory(es, |es|);
    var rest := directory + EndRecord(|es|, |directory|, |locals|);
    LocalsReadBack(es, rest, |es|);
    assert Archive(es) == locals + rest;
    assert es[..|es|] == es;
  }

  /** Reading a written archive gives the entries back exactly when counts and sizes fit their fields. */
  lemma {:induction false} RoundTrip(es: seq<Entry>)
    ensures ReadBack(es) == Some(es) <==> |es| < U16_LIMIT && forall i | 0 <= i < |es| :: Fits(es[i])
  {
    hide Archive, ReadUpTo, Fits, Number;
    CountIsRead(es);
    ReadEntriesFit(Archive(es), |es| % U16_LIMIT);
    if |es| < U16_LIMIT {
      SmallModulo(|es|, U16_LIMIT);
      if forall i | 0 <= i < |es| :: Fits(es[i]) {
        ArchiveReadsBack(es);
      }
    }
  }

  lemma {:induction false} DirectoryPrefix(es: seq<Entry>, k: nat, n: nat)
    requires k < n <= |es|
    ensures Directory(es, k) + Central(es, k) <= Directory(es, n)
    decreases n
  {
    hide Central;
    if k < n - 1 {
      DirectoryPrefix(es, k, n - 1);
      assert Directory(es, n) == Directory(es, n - 1) + Central(es, n - 1);
    }
  }

  lemma CentralOffset(e: Entry, offset: nat)
    ensures Number(CentralHeader(e, offset)[42..46]) == offset % U32_LIMIT
  {
    hide Fill, Crc32;
    Powers();
    SlotValue(46, CentralFields(e, offset), 9);
  }

  /** The offset field of a central record is where a local header and its entry are. */
  ghost predicate NamesLocal(archive: seq<Byte>, record: nat, local: seq<Byte>) {
    && record + 46 <= |archive|
    && var offset := Number(archive[record + 42..record + 46]);
       offset + |local| <= |archive| && archive[offset..offset + |local|] == local
  }

  /** A header in the directory part, and an entry in the part before it. */
  lemma {:induction false} InParts(locals: seq<Byte>, directory: seq<Byte>, end: seq<Byte>,
                before: seq<Byte>, header: seq<Byte>, name: seq<Byte>, first: seq<Byte>, local: seq<Byte>)
    requires |header| == 46 && before + (header + name) <= directory && first + local <= locals
    requires Number(header[42..46]) == |first|
    ensures NamesLocal(locals + directory + end, |locals| + |before|, local)
  {
    hide Number;
    var archive := locals + directory + end;
    assert directory == before + (header + name) + directory[|before| + 46 + |name|..];
    assert locals == first + local + locals[|first| + |local|..];
    assert archive[|locals| + |before| + 42..|locals| + |before| + 46] == header[42..46];
  }

  lemma {:induction false} LocalsUpTo(es: seq<Entry>, k: nat)
    requires k < |es|
    ensures Locals(es[..k]) + Local(es[k]) <= Locals(es)
  {
    hide Local;
    LocalsPrefix(es, k + 1);
    assert es[..k + 1][..k] == es[..k];
  }

  /** Each central record's offset is where its entry's local header starts. */
  lemma {:induction false} CentralOffsetsNameLocals(es: seq<Entry>, k: nat)
    requires k < |es| && |Locals(es)| < U32_LIMIT
    ensures NamesLocal(Archive(es), |Locals(es)| + |Directory(es, k)|, Local(es[k]))
  {
    hide Local, EndRecord, CentralHeader, Directory, Locals, Number, NamesLocal;
    var first, local := Locals(es[..k]), Local(es[k]);
    LocalsUpTo(es, k);
    DirectoryPrefix(es, k, |es|);
    CentralOffset(es[k], |first|);
    SmallModulo(|first|, U32_LIMIT);
    var locals, directory := Locals(es), Directory(es, |es|);
    InParts(locals, directory, EndRecord(|es|, |directory|, |locals|),
            Directory(es, k), CentralHeader(es[k], |first|), es[k].path, first, local);
  }

  /** The end record's size and offset delimit the central directory. */
  lemma {:induction false} EndRecordNamesDirectory(es: seq<Entry>)
    requires |Locals(es)| < U32_LIMIT && |Directory(es, |es|)| < U32_LIMIT
    ensures var archive := Archive(es);
            var end := |archive| - 22;
            var size, offset := Number(archive[end + 12..end + 16]), Number(archive[end + 16..end + 20]);
            offset + size == end && archive[offset..end] == Directory(es, |es|)
  {
    hide EndRecord, Local, Directory, Locals;
    var archive, locals, directory := Archive(es), Locals(es), Directory(es, |es|);
    var end := EndRecord(|es|, |directory|, |locals|);
    EndFieldsRead(|es|, |directory|, |locals|);
    assert archive == locals + directory + end + [];
    FieldOf(end, locals + directory, [], 12, 16);
    FieldOf(end, locals + directory, [], 16, 20);
  }
}
