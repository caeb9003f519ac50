/**
 * The headers of the archives tools/check-client-project-export.swift writes, field by
 * field as sections 4.3.7, 4.3.12 and 4.3.16 of the PKWARE APPNOTE.TXT number them.
 */
module ZipLayout {
  import opened LittleEndian
  import opened StoredZip

  /** Bytes of no field keep what the block held. */
  lemma {:induction false} OutsideFields(bytes: seq<Byte>, fields: seq<Field>, i: nat)
    requires (forall f | f in fields :: Inside(f, |bytes|)) && i < |bytes|
    requires forall f | f in fields :: i < f.offset || f.offset + f.width <= i
    ensures Fill(bytes, fields)[i] == bytes[i]
    decreases |fields|
  {
    if fields != [] {
      assert fields[|fields| - 1] in fields;
      OutsideFields(bytes, fields[..|fields| - 1], i);
    }
  }

  function Two(bytes: seq<Byte>, at: nat): nat
    requires at + 2 <= |bytes|
  {
    Number(bytes[at..at + 2])
  }

  function Four(bytes: seq<Byte>, at: nat): nat
    requires at + 4 <= |bytes|
  {
    Number(bytes[at..at + 4])
  }

  /** Two bytes of no field read as zero. */
  lemma ZeroBetween(length: nat, fields: seq<Field>, at: nat)
    requires Table(fields, length) && at + 2 <= length
    requires forall f | f in fields :: at + 2 <= f.offset || f.offset + f.width <= at
    ensures Two(Fill(Zeros(length), fields), at) == 0
  {
    OutsideFields(Zeros(length), fields, at);
    OutsideFields(Zeros(length), fields, at + 1);
    var two := Fill(Zeros(length), fields)[at..at + 2];
    assert two == [0, 0] && two[1..] == [0] && [0][1..] == [];
    assert Number([0]) == 0;
  }

  /** A field of two or four bytes reads as its value. */
  lemma FieldReads(length: nat, fields: seq<Field>, k: nat, f: Field)
    requires Table(fields, length) && k < |fields| && fields[k] == f
    ensures f.width == 2 ==> Two(Fill(Zeros(length), fields), f.offset) == f.value % 0x1_0000
    ensures f.width == 4 ==> Four(Fill(Zeros(length), fields), f.offset) == f.value % 0x1_0000_0000
  {
    Powers();
    SlotValue(length, fields, k);
    hide Fill, Zeros, Number, Table;
  }

  lemma LocalTable(e: Entry)
    ensures Table(LocalFields(e), 30)
  {
    hide Crc32;
  }

  lemma CentralTable(e: Entry, offset: nat)
    ensures Table(CentralFields(e, offset), 46)
  {
    hide Crc32;
  }

  /**
   * A local header: its signature, version 2.0, names in UTF-8, no compression, the first
   * day of 1980, the checksum, the size twice, the name's length, and no extra field.
   */
  lemma LocalHeaderSays(e: Entry)
    ensures var h := LocalHeader(e);
            && Four(h, 0) == 0x04034b50 && Two(h, 4) == 20 && Two(h, 6) == 0x0800 && Two(h, 8) == 0
            && Two(h, 10) == 0 && Two(h, 12) == 33 && Four(h, 14) == Crc32(e.body)
            && Four(h, 18) == |e.body| % 0x1_0000_0000 && Four(h, 22) == |e.body| % 0x1_0000_0000
            && Two(h, 26) == |e.path| % 0x1_0000 && Two(h, 28) == 0
  {
    var fields := LocalFields(e);
    LocalTable(e);
    hide Fill, Crc32, Two, Four, Table;
    FieldReads(30, fields, 0, Field(0, 0x04034b50, 4));
    FieldReads(30, fields, 1, Field(4, 20, 2));
    FieldReads(30, fields, 2, Field(6, 0x0800, 2));
    FieldReads(30, fields, 3, Field(12, 33, 2));
    FieldReads(30, fields, 4, Field(14, Crc32(e.body), 4));
    FieldReads(30, fields, 5, Field(18, |e.body|, 4));
    FieldReads(30, fields, 6, Field(22, |e.body|, 4));
    FieldReads(30, fields, 7, Field(26, |e.path|, 2));
    ZeroBetween(30, fields, 8);
    ZeroBetween(30, fields, 10);
    ZeroBetween(30, fields, 28);
  }

  /**
   * A central header: signature, versions, and the same words as the local one; no extra
   * field, comment, further disk or attributes; and where the local header is.
   */
  lemma CentralHeaderSays(e: Entry, offset: nat)
    ensures var h := CentralHeader(e, offset);
            && Four(h, 0) == 0x02014b50 && Two(h, 4) == 20 && Two(h, 6) == 20 && Two(h, 8) == 0x0800
            && Two(h, 10) == 0 && Two(h, 12) == 0 && Two(h, 14) == 33 && Four(h, 16) == Crc32(e.body)
            && Four(h, 20) == |e.body| % 0x1_0000_0000 && Four(h, 24) == |e.body| % 0x1_0000_0000
            && Two(h, 28) == |e.path| % 0x1_0000 && Two(h, 30) == 0 && Two(h, 32) == 0 && Two(h, 34) == 0
            && Two(h, 36) == 0 && Two(h, 38) == 0 && Two(h, 40) == 0 && Four(h, 42) == offset % 0x1_0000_0000
  {
    var fields := CentralFields(e, offset);
    CentralTable(e, offset);
    hide Fill, Crc32, Two, Four, Table;
    FieldReads(46, fields, 0, Field(0, 0x02014b50, 4));
    FieldReads(46, fields, 1, Field(4, 20, 2));
    FieldReads(46, fields, 2, Field(6, 20, 2));
    FieldReads(46, fields, 3, Field(8, 0x0800, 2));
    FieldReads(46, fields, 4, Field(14, 33, 2));
    FieldReads(46, fields, 5, Field(16, Crc32(e.body), 4));
    FieldReads(46, fields, 6, Field(20, |e.body|, 4));
    FieldReads(46, fields, 7, Field(24, |e.body|, 4));
    FieldReads(46, fields, 8, Field(28, |e.path|, 2));
    FieldReads(46, fields, 9, Field(42, offset, 4));
    CentralZeros(e, offset);
  }

  lemma CentralZeros(e: Entry, offset: nat)
    ensures var h := CentralHeader(e, offset);
            && Two(h, 10) == 0 && Two(h, 12) == 0 && Two(h, 30) == 0 && Two(h, 32) == 0
            && Two(h, 34) == 0 && Two(h, 36) == 0 && Two(h, 38) == 0 && Two(h, 40) == 0
  {
    var fields := CentralFields(e, offset);
    CentralTable(e, offset);
    hide Fill, Crc32, Two, Table;
    ZeroBetween(46, fields, 10);
    ZeroBetween(46, fields, 12);
    ZeroBetween(46, fields, 30);
    ZeroBetween(46, fields, 32);
    ZeroBetween(46, fields, 34);
    ZeroBetween(46, fields, 36);
    ZeroBetween(46, fields, 38);
    ZeroBetween(46, fields, 40);
  }

  /** The end record: one disk, the number of entries twice, size and offset of the directory, no comment. */
  lemma EndRecordSays(count: nat, size: nat, offset: nat)
    ensures var h := EndRecord(count, size, offset);
            && Four(h, 0) == 0x06054b50 && Two(h, 4) == 0 && Two(h, 6) == 0
            && Two(h, 8) == count % 0x1_0000 && Two(h, 10) == count % 0x1_0000
            && Four(h, 12) == size % 0x1_0000_0000 && Four(h, 16) == offset % 0x1_0000_0000 && Two(h, 20) == 0
  {
    var fields := EndFields(count, size, offset);
    assert Table(fields, 22);
    hide Fill, Two, Four, Table;
    FieldReads(22, fields, 0, Field(0, 0x06054b50, 4));
    FieldReads(22, fields, 1, Field(8, count, 2));
    FieldReads(22, fields, 2, Field(10, count, 2));
    FieldReads(22, fields, 3, Field(12, size, 4));
    FieldReads(22, fields, 4, Field(16, offset, 4));
    ZeroBetween(22, fields, 4);
    ZeroBetween(22, fields, 6);
    ZeroBetween(22, fields, 20);
  }
}
