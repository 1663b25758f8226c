// The stored zip: its writer, its stream, its length and its walk (apps/api/src/common/stored-zip.ts).
module StoredZip {
  import opened Bytes

  datatype Result<+T> = Ok(value: T) | Error

  const PLAIN: nat := 20
  const ZIP64: nat := 45
  const LOCAL_SIGNATURE: nat := 0x04034b50
  const CENTRAL_SIGNATURE: nat := 0x02014b50
  const END_SIGNATURE: nat := 0x06054b50
  const ZIP64_END_SIGNATURE: nat := 0x06064b50
  const LOCATOR_SIGNATURE: nat := 0x07064b50

  /** One entry: its name in UTF-8, its content, its checksum and its DOS stamp. */
  datatype Entry = Entry(name: seq<byte>, bytes: seq<byte>, crc: nat, time: nat, date: nat)

  /** An entry as the directory records it. */
  datatype Record = Record(name: seq<byte>, crc: nat, size: nat, offset: nat, time: nat, date: nat)

  function RecordOf(e: Entry, offset: nat): Record
  {
    Record(e.name, e.crc, |e.bytes|, offset, e.time, e.date)
  }

  /** What the fixed-width writes accept: past it Node throws a range error. */
  predicate Writable(e: Entry)
  {
    && |e.name| <= ALL16 && |e.bytes| <= ALL32 && e.crc <= ALL32
    && e.time <= ALL16 && e.date <= ALL16
  }

  // ---- the records, byte for byte ----

  function LocalSlots(r: Record): seq<Slot>
  {
    [Slot(LOCAL_SIGNATURE, 4), Slot(PLAIN, 2), Slot(0, 2), Slot(0, 2), Slot(r.time, 2), Slot(r.date, 2),
     Slot(r.crc, 4), Slot(r.size, 4), Slot(r.size, 4), Slot(|r.name|, 2), Slot(0, 2)]
  }

  function LocalHeader(r: Record): seq<byte>
  {
    Pack(LocalSlots(r)) + r.name
  }

  predicate FarOffset(r: Record)
  {
    r.offset >= ALL32
  }

  function CentralSlots(r: Record): seq<Slot>
  {
    var version := if FarOffset(r) then ZIP64 else PLAIN;
    [Slot(CENTRAL_SIGNATURE, 4), Slot(version, 2), Slot(version, 2), Slot(0, 2), Slot(0, 2),
     Slot(r.time, 2), Slot(r.date, 2), Slot(r.crc, 4), Slot(r.size, 4), Slot(r.size, 4), Slot(|r.name|, 2),
     Slot(if FarOffset(r) then 12 else 0, 2), Slot(0, 2), Slot(0, 2), Slot(0, 2), Slot(0, 4),
     Slot(if FarOffset(r) then ALL32 else r.offset, 4)]
  }

  function ExtraSlots(r: Record): seq<Slot>
  {
    [Slot(1, 2), Slot(8, 2), Slot(r.offset, 8)]
  }

  /** A directory record; an offset past 32 bits goes in a Zip64 extra field. */
  function CentralRecord(r: Record): seq<byte>
  {
    Pack(CentralSlots(r)) + (r.name + if FarOffset(r) then Pack(ExtraSlots(r)) else [])
  }

  function Capped(n: nat, cap: nat): nat
  {
    if n < cap then n else cap
  }

  predicate NeedsZip64(count: nat, centralOffset: nat, centralSize: nat)
  {
    count >= ALL16 || centralOffset >= ALL32 || centralSize >= ALL32
  }

  function EndSlots(count: nat, centralOffset: nat, centralSize: nat): seq<Slot>
  {
    [Slot(END_SIGNATURE, 4), Slot(0, 2), Slot(0, 2), Slot(Capped(count, ALL16), 2), Slot(Capped(count, ALL16), 2),
     Slot(Capped(centralSize, ALL32), 4), Slot(Capped(centralOffset, ALL32), 4), Slot(0, 2)]
  }

  function Zip64EndSlots(count: nat, centralOffset: nat, centralSize: nat): seq<Slot>
  {
    [Slot(ZIP64_END_SIGNATURE, 4), Slot(44, 8), Slot(ZIP64, 2), Slot(ZIP64, 2), Slot(0, 4), Slot(0, 4),
     Slot(count, 8), Slot(count, 8), Slot(centralSize, 8), Slot(centralOffset, 8)]
  }

  function LocatorSlots(centralOffset: nat, centralSize: nat): seq<Slot>
  {
    [Slot(LOCATOR_SIGNATURE, 4), Slot(0, 4), Slot(centralOffset + centralSize, 8), Slot(1, 4)]
  }

  /** The end of the zip: the classic end record, after the Zip64 ones when a classic field is too small. */
  function EndRecords(count: nat, centralOffset: nat, centralSize: nat): seq<byte>
  {
    var end := Pack(EndSlots(count, centralOffset, centralSize));
    if NeedsZip64(count, centralOffset, centralSize)
    then Pack(Zip64EndSlots(count, centralOffset, centralSize)) + (Pack(LocatorSlots(centralOffset, centralSize)) + end)
    else end
  }

  // ---- the whole file ----

  function PartLength(e: Entry): nat
  {
    30 + |e.name| + |e.bytes|
  }

  /** Where entry `n` starts. */
  function OffsetOf(entries: seq<Entry>, n: nat): nat
    requires n <= |entries|
  {
    if n == 0 then 0 else OffsetOf(entries, n - 1) + PartLength(entries[n - 1])
  }

  function RecordAt(entries: seq<Entry>, n: nat): Record
    requires n < |entries|
  {
    RecordOf(entries[n], OffsetOf(entries, n))
  }

  /** The first `n` entries one after the other, each a header and its content as given. */
  function LocalsTo(entries: seq<Entry>, n: nat): seq<byte>
    requires n <= |entries|
  {
    if n == 0 then []
    else LocalsTo(entries, n - 1) + (LocalHeader(RecordAt(entries, n - 1)) + entries[n - 1].bytes)
  }

  function DirectoryTo(entries: seq<Entry>, n: nat): seq<byte>
    requires n <= |entries|
  {
    if n == 0 then [] else DirectoryTo(entries, n - 1) + CentralRecord(RecordAt(entries, n - 1))
  }

  function CentralOffset(entries: seq<Entry>): nat
  {
    OffsetOf(entries, |entries|)
  }

  function Directory(entries: seq<Entry>): seq<byte>
  {
    DirectoryTo(entries, |entries|)
  }

  function EndOf(entries: seq<Entry>): seq<byte>
  {
    EndRecords(|entries|, CentralOffset(entries), |Directory(entries)|)
  }

  function Zip(entries: seq<Entry>): seq<byte>
  {
    LocalsTo(entries, |entries|) + (Directory(entries) + EndOf(entries))
  }

  /** Node's writes accept every number of the file: the fields of each entry, and 64-bit positions. */
  predicate Representable(entries: seq<Entry>)
  {
    && (forall i :: 0 <= i < |entries| ==> Writable(entries[i]))
    && CentralOffset(entries) + |Directory(entries)| < 0x1_0000_0000_0000_0000
  }

  // ---- where each field of a record starts ----

  lemma {:induction false} LocalStarts(r: Record)
    ensures var s := LocalSlots(r); Start(s, 1) == 4 && Start(s, 2) == 6 && Start(s, 3) == 8 && Start(s, 4) == 10
    ensures var s := LocalSlots(r); Start(s, 5) == 12 && Start(s, 6) == 14 && Start(s, 7) == 18 && Start(s, 8) == 22
    ensures var s := LocalSlots(r); Start(s, 9) == 26 && Start(s, 10) == 28 && Start(s, 11) == 30
  {
    var s := LocalSlots(r);
    assert Start(s, 1) == 4;
    assert Start(s, 2) == 6;
    assert Start(s, 3) == 8;
    assert Start(s, 4) == 10;
    assert Start(s, 5) == 12;
    assert Start(s, 6) == 14;
    assert Start(s, 7) == 18;
    assert Start(s, 8) == 22;
    assert Start(s, 9) == 26;
    assert Start(s, 10) == 28;
    assert Start(s, 11) == 30;
  }

  lemma {:induction false} CentralStarts(r: Record)
    ensures var s := CentralSlots(r); Start(s, 1) == 4 && Start(s, 2) == 6 && Start(s, 3) == 8 && Start(s, 4) == 10
    ensures var s := CentralSlots(r); Start(s, 5) == 12 && Start(s, 6) == 14 && Start(s, 7) == 16 && Start(s, 8) == 20
    ensures var s := CentralSlots(r); Start(s, 9) == 24 && Start(s, 10) == 28 && Start(s, 11) == 30 && Start(s, 12) == 32
    ensures var s := CentralSlots(r); Start(s, 13) == 34 && Start(s, 14) == 36 && Start(s, 15) == 38 && Start(s, 16) == 42
    ensures var s := CentralSlots(r); Start(s, 17) == 46
  {
    var s := CentralSlots(r);
    assert Start(s, 1) == 4;
    assert Start(s, 2) == 6;
    assert Start(s, 3) == 8;
    assert Start(s, 4) == 10;
    assert Start(s, 5) == 12;
    assert Start(s, 6) == 14;
    assert Start(s, 7) == 16;
    assert Start(s, 8) == 20;
    assert Start(s, 9) == 24;
    assert Start(s, 10) == 28;
    assert Start(s, 11) == 30;
    assert Start(s, 12) == 32;
    assert Start(s, 13) == 34;
    assert Start(s, 14) == 36;
    assert Start(s, 15) == 38;
    assert Start(s, 16) == 42;
    assert Start(s, 17) == 46;
  }

  lemma {:induction false} ExtraStarts(r: Record)
    ensures var s := ExtraSlots(r); Start(s, 1) == 2 && Start(s, 2) == 4 && Start(s, 3) == 12
  {
    var s := ExtraSlots(r);
    assert Start(s, 1) == 2;
    assert Start(s, 2) == 4;
    assert Start(s, 3) == 12;
  }

  lemma {:induction false} EndStarts(count: nat, centralOffset: nat, centralSize: nat)
    ensures var s := EndSlots(count, centralOffset, centralSize); Start(s, 1) == 4 && Start(s, 2) == 6 && Start(s, 3) == 8 && Start(s, 4) == 10
    ensures var s := EndSlots(count, centralOffset, centralSize); Start(s, 5) == 12 && Start(s, 6) == 16 && Start(s, 7) == 20 && Start(s, 8) == 22
  {
    var s := EndSlots(count, centralOffset, centralSize);
    assert Start(s, 1) == 4;
    assert Start(s, 2) == 6;
    assert Start(s, 3) == 8;
    assert Start(s, 4) == 10;
    assert Start(s, 5) == 12;
    assert Start(s, 6) == 16;
    assert Start(s, 7) == 20;
    assert Start(s, 8) == 22;
  }

  lemma {:induction false} Zip64EndStarts(count: nat, centralOffset: nat, centralSize: nat)
    ensures var s := Zip64EndSlots(count, centralOffset, centralSize); Start(s, 1) == 4 && Start(s, 2) == 12 && Start(s, 3) == 14 && Start(s, 4) == 16
    ensures var s := Zip64EndSlots(count, centralOffset, centralSize); Start(s, 5) == 20 && Start(s, 6) == 24 && Start(s, 7) == 32 && Start(s, 8) == 40
    ensures var s := Zip64EndSlots(count, centralOffset, centralSize); Start(s, 9) == 48 && Start(s, 10) == 56
  {
    var s := Zip64EndSlots(count, centralOffset, centralSize);
    assert Start(s, 1) == 4;
    assert Start(s, 2) == 12;
    assert Start(s, 3) == 14;
    assert Start(s, 4) == 16;
    assert Start(s, 5) == 20;
    assert Start(s, 6) == 24;
    assert Start(s, 7) == 32;
    assert Start(s, 8) == 40;
    assert Start(s, 9) == 48;
    assert Start(s, 10) == 56;
  }

  lemma {:induction false} LocatorStarts(centralOffset: nat, centralSize: nat)
    ensures var s := LocatorSlots(centralOffset, centralSize); Start(s, 1) == 4 && Start(s, 2) == 8 && Start(s, 3) == 16 && Start(s, 4) == 20
  {
    var s := LocatorSlots(centralOffset, centralSize);
    assert Start(s, 1) == 4;
    assert Start(s, 2) == 8;
    assert Start(s, 3) == 16;
    assert Start(s, 4) == 20;
  }

  lemma {:induction false} LocalLength(r: Record)
    ensures |LocalHeader(r)| == 30 + |r.name|
    ensures |Pack(LocalSlots(r))| == 30
  {
    LocalStarts(r);
  }

  lemma {:induction false} CentralLength(r: Record)
    ensures |Pack(CentralSlots(r))| == 46
    ensures |Pack(ExtraSlots(r))| == 12
    ensures |CentralRecord(r)| == 46 + |r.name| + if FarOffset(r) then 12 else 0
  {
    CentralStarts(r);
    ExtraStarts(r);
  }

  lemma {:induction false} EndLength(count: nat, centralOffset: nat, centralSize: nat)
    ensures |Pack(EndSlots(count, centralOffset, centralSize))| == 22
    ensures |Pack(Zip64EndSlots(count, centralOffset, centralSize))| == 56
    ensures |Pack(LocatorSlots(centralOffset, centralSize))| == 20
    ensures |EndRecords(count, centralOffset, centralSize)|
         == if NeedsZip64(count, centralOffset, centralSize) then 98 else 22
  {
    EndStarts(count, centralOffset, centralSize);
    Zip64EndStarts(count, centralOffset, centralSize);
    LocatorStarts(centralOffset, centralSize);
  }

  lemma {:induction false} LocalsLength(entries: seq<Entry>, n: nat)
    requires n <= |entries|
    ensures |LocalsTo(entries, n)| == OffsetOf(entries, n)
  {
    if n > 0 {
      LocalsLength(entries, n - 1);
      LocalLength(RecordAt(entries, n - 1));
    }
  }

  lemma {:induction false} OffsetsGrow(entries: seq<Entry>, m: nat, n: nat)
    requires m <= n <= |entries|
    ensures OffsetOf(entries, m) <= OffsetOf(entries, n)
  {
    if m < n {
      OffsetsGrow(entries, m, n - 1);
    }
  }

  /** The directory takes at least 46 bytes an entry, so its size bounds the entry count. */
  /** What one entry adds to the directory. */
  lemma {:induction false} DirectoryStep(entries: seq<Entry>, n: nat)
    requires 0 < n <= |entries|
    ensures |DirectoryTo(entries, n)| == |DirectoryTo(entries, n - 1)| + 46 + |entries[n - 1].name|
                                       + if FarOffset(RecordAt(entries, n - 1)) then 12 else 0
  {
    CentralLength(RecordAt(entries, n - 1));
  }

  lemma {:induction false} DirectoryBoundsCount(entries: seq<Entry>, n: nat)
    requires n <= |entries|
    ensures |DirectoryTo(entries, n)| >= 46 * n
  {
    if n > 0 {
      DirectoryBoundsCount(entries, n - 1);
      DirectoryStep(entries, n);
    }
  }

  // ---- the writer ----

  method BuildLocalHeader(r: Record) returns (header: seq<byte>)
    ensures header == LocalHeader(r)
  {
    ghost var s := LocalSlots(r);
    var local := Alloc(30);
    assert local[..] == Partial(s, 0, 30);
    PutLocalStamp(local, r, s);
    PutLocalSizes(local, r, s);
    header := local[..] + r.name;
  }

  method PutLocalStamp(local: array<byte>, r: Record, ghost s: seq<Slot>)
    requires s == LocalSlots(r) && local.Length == 30
    requires local[..] == Partial(s, 0, 30)
    modifies local
    ensures Start(s, 6) == 14 && local[..] == Partial(s, 6, 30)
  {
    LocalStarts(r);
    PutSlot(local, s, 0, LOCAL_SIGNATURE, 0, 4);
    PutSlot(local, s, 1, PLAIN, 4, 2);
    SkipSlot(s, 2, 30);
    SkipSlot(s, 3, 30);
    PutSlot(local, s, 4, r.time, 10, 2);
    PutSlot(local, s, 5, r.date, 12, 2);
  }

  method PutLocalSizes(local: array<byte>, r: Record, ghost s: seq<Slot>)
    requires s == LocalSlots(r) && local.Length == 30
    requires Start(s, 6) == 14 && local[..] == Partial(s, 6, 30)
    modifies local
    ensures local[..] == Pack(s)
  {
    LocalStarts(r);
    PutSlot(local, s, 6, r.crc, 14, 4);
    PutSlot(local, s, 7, r.size, 18, 4);
    PutSlot(local, s, 8, r.size, 22, 4);
    PutSlot(local, s, 9, |r.name|, 26, 2);
    SkipSlot(s, 10, 30);
    assert Partial(s, 11, 30) == Pack(s);
  }

  method BuildCentralRecord(r: Record) returns (record: seq<byte>)
    ensures record == CentralRecord(r)
  {
    ghost var s := CentralSlots(r);
    var central := Alloc(46);
    assert central[..] == Partial(s, 0, 46);
    PutCentralVersions(central, r, s);
    PutCentralSizes(central, r, s);
    PutCentralOffset(central, r, s);
    if r.offset < ALL32 {
      assert r.name + [] == r.name;
      return central[..] + r.name;
    }
    var extra := BuildExtra(r);
    record := central[..] + (r.name + extra);
  }

  method PutCentralVersions(central: array<byte>, r: Record, ghost s: seq<Slot>)
    requires s == CentralSlots(r) && central.Length == 46
    requires central[..] == Partial(s, 0, 46)
    modifies central
    ensures Start(s, 5) == 12 && central[..] == Partial(s, 5, 46)
  {
    CentralStarts(r);
    var version := if r.offset >= ALL32 then ZIP64 else PLAIN;
    PutSlot(central, s, 0, CENTRAL_SIGNATURE, 0, 4);
    PutSlot(central, s, 1, version, 4, 2);
    PutSlot(central, s, 2, version, 6, 2);
    SkipSlot(s, 3, 46);
    SkipSlot(s, 4, 46);
  }

  method PutCentralSizes(central: array<byte>, r: Record, ghost s: seq<Slot>)
    requires s == CentralSlots(r) && central.Length == 46
    requires Start(s, 5) == 12 && central[..] == Partial(s, 5, 46)
    modifies central
    ensures Start(s, 11) == 30 && central[..] == Partial(s, 11, 46)
  {
    CentralStarts(r);
    PutSlot(central, s, 5, r.time, 12, 2);
    PutSlot(central, s, 6, r.date, 14, 2);
    PutSlot(central, s, 7, r.crc, 16, 4);
    PutSlot(central, s, 8, r.size, 20, 4);
    PutSlot(central, s, 9, r.size, 24, 4);
    PutSlot(central, s, 10, |r.name|, 28, 2);
  }

  method PutCentralOffset(central: array<byte>, r: Record, ghost s: seq<Slot>)
    requires s == CentralSlots(r) && central.Length == 46
    requires Start(s, 11) == 30 && central[..] == Partial(s, 11, 46)
    modifies central
    ensures central[..] == Pack(s)
  {
    CentralStarts(r);
    if r.offset >= ALL32 {
      PutSlot(central, s, 11, 12, 30, 2);
    } else {
      SkipSlot(s, 11, 46);
    }
    SkipSlot(s, 12, 46);
    SkipSlot(s, 13, 46);
    SkipSlot(s, 14, 46);
    SkipSlot(s, 15, 46);
    PutSlot(central, s, 16, if r.offset >= ALL32 then ALL32 else r.offset, 42, 4);
    assert Partial(s, 17, 46) == Pack(s);
  }

  method BuildExtra(r: Record) returns (bytes: seq<byte>)
    ensures bytes == Pack(ExtraSlots(r))
  {
    ghost var s := ExtraSlots(r);
    ExtraStarts(r);
    var extra := Alloc(12);
    assert extra[..] == Partial(s, 0, 12);
    PutSlot(extra, s, 0, 1, 0, 2);
    PutSlot(extra, s, 1, 8, 2, 2);
    PutSlot(extra, s, 2, r.offset, 4, 8);
    assert Partial(s, 3, 12) == Pack(s);
    bytes := extra[..];
  }

  method BuildEndRecords(count: nat, centralOffset: nat, centralSize: nat) returns (bytes: seq<byte>)
    ensures bytes == EndRecords(count, centralOffset, centralSize)
  {
    bytes := BuildClassicEnd(count, centralOffset, centralSize);
    if NeedsZip64(count, centralOffset, centralSize) {
      var zip64End := BuildZip64End(count, centralOffset, centralSize);
      var locator := BuildLocator(centralOffset, centralSize);
      bytes := zip64End + (locator + bytes);
    }
  }

  method BuildClassicEnd(count: nat, centralOffset: nat, centralSize: nat) returns (bytes: seq<byte>)
    ensures bytes == Pack(EndSlots(count, centralOffset, centralSize))
  {
    ghost var s := EndSlots(count, centralOffset, centralSize);
    var end := Alloc(22);
    assert end[..] == Partial(s, 0, 22);
    PutEndCounts(end, count, centralOffset, centralSize, s);
    PutEndPlace(end, count, centralOffset, centralSize, s);
    bytes := end[..];
  }

  method PutEndCounts(end: array<byte>, count: nat, ghost centralOffset: nat, ghost centralSize: nat, ghost s: seq<Slot>)
    requires s == EndSlots(count, centralOffset, centralSize) && end.Length == 22
    requires end[..] == Partial(s, 0, 22)
    modifies end
    ensures Start(s, 5) == 12 && end[..] == Partial(s, 5, 22)
  {
    EndStarts(count, centralOffset, centralSize);
    PutSlot(end, s, 0, END_SIGNATURE, 0, 4);
    SkipSlot(s, 1, 22);
    SkipSlot(s, 2, 22);
    PutSlot(end, s, 3, Capped(count, ALL16), 8, 2);
    PutSlot(end, s, 4, Capped(count, ALL16), 10, 2);
  }

  method PutEndPlace(end: array<byte>, ghost count: nat, centralOffset: nat, centralSize: nat, ghost s: seq<Slot>)
    requires s == EndSlots(count, centralOffset, centralSize) && end.Length == 22
    requires Start(s, 5) == 12 && end[..] == Partial(s, 5, 22)
    modifies end
    ensures end[..] == Pack(s)
  {
    EndStarts(count, centralOffset, centralSize);
    PutSlot(end, s, 5, Capped(centralSize, ALL32), 12, 4);
    PutSlot(end, s, 6, Capped(centralOffset, ALL32), 16, 4);
    SkipSlot(s, 7, 22);
    assert Partial(s, 8, 22) == Pack(s);
  }

  method BuildZip64End(count: nat, centralOffset: nat, centralSize: nat) returns (bytes: seq<byte>)
    ensures bytes == Pack(Zip64EndSlots(count, centralOffset, centralSize))
  {
    ghost var s := Zip64EndSlots(count, centralOffset, centralSize);
    var end := Alloc(56);
    assert end[..] == Partial(s, 0, 56);
    PutZip64Versions(end, count, centralOffset, centralSize, s);
    PutZip64Sizes(end, count, centralOffset, centralSize, s);
    bytes := end[..];
  }

  method PutZip64Versions(end: array<byte>, ghost count: nat, ghost centralOffset: nat, ghost centralSize: nat,
                          ghost s: seq<Slot>)
    requires s == Zip64EndSlots(count, centralOffset, centralSize) && end.Length == 56
    requires end[..] == Partial(s, 0, 56)
    modifies end
    ensures Start(s, 6) == 24 && end[..] == Partial(s, 6, 56)
  {
    Zip64EndStarts(count, centralOffset, centralSize);
    PutSlot(end, s, 0, ZIP64_END_SIGNATURE, 0, 4);
    PutSlot(end, s, 1, 44, 4, 8);
    PutSlot(end, s, 2, ZIP64, 12, 2);
    PutSlot(end, s, 3, ZIP64, 14, 2);
    SkipSlot(s, 4, 56);
    SkipSlot(s, 5, 56);
  }

  method PutZip64Sizes(end: array<byte>, count: nat, centralOffset: nat, centralSize: nat, ghost s: seq<Slot>)
    requires s == Zip64EndSlots(count, centralOffset, centralSize) && end.Length == 56
    requires Start(s, 6) == 24 && end[..] == Partial(s, 6, 56)
    modifies end
    ensures end[..] == Pack(s)
  {
    Zip64EndStarts(count, centralOffset, centralSize);
    PutSlot(end, s, 6, count, 24, 8);
    PutSlot(end, s, 7, count, 32, 8);
    PutSlot(end, s, 8, centralSize, 40, 8);
    PutSlot(end, s, 9, centralOffset, 48, 8);
    assert Partial(s, 10, 56) == Pack(s);
  }

  method BuildLocator(centralOffset: nat, centralSize: nat) returns (bytes: seq<byte>)
    ensures bytes == Pack(LocatorSlots(centralOffset, centralSize))
  {
    ghost var s := LocatorSlots(centralOffset, centralSize);
    LocatorStarts(centralOffset, centralSize);
    var locator := Alloc(20);
    assert locator[..] == Partial(s, 0, 20);
    PutSlot(locator, s, 0, LOCATOR_SIGNATURE, 0, 4);
    SkipSlot(s, 1, 20);
    PutSlot(locator, s, 2, centralOffset + centralSize, 8, 8);
    PutSlot(locator, s, 3, 1, 16, 4);
    assert Partial(s, 4, 20) == Pack(s);
    bytes := locator[..];
  }

  function Concat(chunks: seq<seq<byte>>): seq<byte>
  {
    if chunks == [] then [] else Concat(chunks[..|chunks| - 1]) + chunks[|chunks| - 1]
  }

  /** Every directory record, in the order of the entries. */
  method BuildDirectory(entries: seq<Entry>) returns (central: seq<byte>)
    ensures central == Directory(entries)
  {
    central := [];
    var offset := 0;
    for i := 0 to |entries|
      invariant central == DirectoryTo(entries, i)
      invariant offset == OffsetOf(entries, i)
    {
      var record := BuildCentralRecord(RecordOf(entries[i], offset));
      central := central + record;
      offset := offset + 30 + |entries[i].name| + |entries[i].bytes|;
    }
  }

  /** A header and a content in turn, each content as given. */
  predicate Alternates(chunks: seq<seq<byte>>, entries: seq<Entry>, n: nat)
  {
    |chunks| == 2 * n && n <= |entries| && forall j :: 0 <= j < n ==> chunks[2 * j + 1] == entries[j].bytes
  }

  lemma {:induction false} TwoMoreChunks(chunks: seq<seq<byte>>, header: seq<byte>, entries: seq<Entry>, n: nat)
    requires Alternates(chunks, entries, n) && n < |entries|
    ensures Alternates(chunks + [header] + [entries[n].bytes], entries, n + 1)
    ensures Concat(chunks + [header] + [entries[n].bytes]) == Concat(chunks) + (header + entries[n].bytes)
  {
    ConcatTwoMore(chunks, header, entries[n].bytes);
  }

  lemma {:induction false} ConcatTwoMore(chunks: seq<seq<byte>>, a: seq<byte>, b: seq<byte>)
    ensures Concat(chunks + [a] + [b]) == Concat(chunks) + (a + b)
  {
    var one := chunks + [a];
    assert one[..|chunks|] == chunks;
    assert (one + [b])[..|one|] == one;
  }

  /** Each content that was sent is a chunk of its own, as given. */
  predicate SendsContents(chunks: seq<seq<byte>>, entries: seq<Entry>)
  {
    forall j :: 0 <= j < |entries| && 2 * j + 1 < |chunks| ==> chunks[2 * j + 1] == entries[j].bytes
  }

  lemma {:induction false} LocalsStep(entries: seq<Entry>, n: nat)
    requires n < |entries|
    ensures LocalsTo(entries, n + 1) == LocalsTo(entries, n) + (LocalHeader(RecordAt(entries, n)) + entries[n].bytes)
    ensures OffsetOf(entries, n + 1) == OffsetOf(entries, n) + |LocalHeader(RecordAt(entries, n))| + |entries[n].bytes|
  {
    LocalLength(RecordAt(entries, n));
  }

  /** Each entry's header and content in turn, up to the first one a field cannot hold. */
  method WriteEntries(entries: seq<Entry>) returns (chunks: seq<seq<byte>>, offset: nat, done: bool)
    ensures done <==> forall i :: 0 <= i < |entries| ==> Writable(entries[i])
    ensures done ==> Concat(chunks) == LocalsTo(entries, |entries|) && offset == CentralOffset(entries)
    ensures done ==> |chunks| == 2 * |entries|
    ensures Alternates(chunks, entries, |chunks| / 2)
  {
    chunks, offset, done := [], 0, false;
    for i := 0 to |entries|
      invariant Alternates(chunks, entries, i)
      invariant forall j :: 0 <= j < i ==> Writable(entries[j])
      invariant Concat(chunks) == LocalsTo(entries, i)
      invariant offset == OffsetOf(entries, i)
    {
      if !Writable(entries[i]) {
        return;
      }
      var header := BuildLocalHeader(RecordOf(entries[i], offset));
      LocalsStep(entries, i);
      TwoMoreChunks(chunks, header, entries, i);
      chunks := chunks + [header] + [entries[i].bytes];
      offset := offset + |header| + |entries[i].bytes|;
    }
    done := true;
  }

  /**
   * `zipStream`: the zip as chunks, each content a chunk as given. A number a field cannot hold
   * stops it: `done` is false and the chunks are those sent until then.
   */
  method ZipStream(entries: seq<Entry>) returns (chunks: seq<seq<byte>>, done: bool)
    ensures done <==> Representable(entries)
    ensures done ==> Concat(chunks) == Zip(entries) && |chunks| == 2 * |entries| + 2
    ensures SendsContents(chunks, entries)
  {
    var offset: nat;
    chunks, offset, done := WriteEntries(entries);
    if !done {
      return;
    }
    var central := BuildDirectory(entries);
    if offset + |central| >= 0x1_0000_0000_0000_0000 {
      return chunks, false;
    }
    var end := BuildEndRecords(|entries|, offset, |central|);
    ConcatTwoMore(chunks, central, end);
    LastTwoAreNoContents(chunks, central, end, entries);
    chunks := chunks + [central] + [end];
  }

  lemma {:induction false} LastTwoAreNoContents(chunks: seq<seq<byte>>, central: seq<byte>, end: seq<byte>, entries: seq<Entry>)
    requires Alternates(chunks, entries, |entries|)
    ensures SendsContents(chunks + [central] + [end], entries)
  {
  }

  type uint32 = n: nat | n <= ALL32

  /** A file of an in-memory zip: its name in UTF-8 and its content. */
  datatype File = File(name: seq<byte>, content: seq<byte>)

  function EntryOf(f: File, crc32: seq<byte> -> uint32): Entry
  {
    Entry(f.name, f.content, crc32(f.content), 0, 0)
  }

  function EntriesOf(files: seq<File>, crc32: seq<byte> -> uint32): (r: seq<Entry>)
    ensures |r| == |files| && forall i :: 0 <= i < |files| ==> r[i] == EntryOf(files[i], crc32)
  {
    seq(|files|, i requires 0 <= i < |files| => EntryOf(files[i], crc32))
  }

  /** `createStoredZip`: the same records in one buffer, with no stamp and the checksum computed. */
  method CreateStoredZip(files: seq<File>, crc32: seq<byte> -> uint32) returns (r: Result<seq<byte>>)
    ensures var entries := EntriesOf(files, crc32);
            r == if Representable(entries) then Ok(Zip(entries)) else Error
  {
    var entries := EntriesOf(files, crc32);
    var parts, offset, done := WriteEntries(entries);
    if !done {
      return Error;
    }
    var central := BuildDirectory(entries);
    if offset + |central| >= 0x1_0000_0000_0000_0000 {
      return Error;
    }
    var end := BuildEndRecords(|entries|, offset, |central|);
    r := Ok(Concat(parts) + (central + end));
  }

  // ---- the length without the bytes ----

  datatype EntrySize = EntrySize(name: seq<byte>, bytes: nat)

  function SizesOf(entries: seq<Entry>): (r: seq<EntrySize>)
    ensures |r| == |entries|
    ensures forall i :: 0 <= i < |r| ==> r[i] == EntrySize(entries[i].name, |entries[i].bytes|)
  {
    seq(|entries|, i requires 0 <= i < |entries| => EntrySize(entries[i].name, |entries[i].bytes|))
  }

  function BytesTo(sizes: seq<EntrySize>, n: nat): nat
    requires n <= |sizes|
  {
    if n == 0 then 22 else BytesTo(sizes, n - 1) + 30 + 46 + 2 * |sizes[n - 1].name| + sizes[n - 1].bytes
  }

  method StoredZipBytes(sizes: seq<EntrySize>) returns (total: nat)
    ensures total == BytesTo(sizes, |sizes|)
  {
    total := 22;
    for i := 0 to |sizes|
      invariant total == BytesTo(sizes, i)
    {
      total := total + 30 + 46 + 2 * |sizes[i].name| + sizes[i].bytes;
    }
  }

  /** How many of the first `n` entries start past 32 bits: each takes a Zip64 extra field. */
  function FarTo(entries: seq<Entry>, n: nat): nat
    requires n <= |entries|
  {
    if n == 0 then 0 else FarTo(entries, n - 1) + if OffsetOf(entries, n - 1) >= ALL32 then 1 else 0
  }

  lemma {:induction false} PartsLength(entries: seq<Entry>, n: nat)
    requires n <= |entries|
    ensures OffsetOf(entries, n) + |DirectoryTo(entries, n)| + 22 == BytesTo(SizesOf(entries), n) + 12 * FarTo(entries, n)
    ensures FarTo(entries, n) > 0 ==> OffsetOf(entries, n) >= ALL32
  {
    if n > 0 {
      PartsLength(entries, n - 1);
      DirectoryStep(entries, n);
    }
  }

  /** The formula counts every byte but the Zip64 ones, so it is exact if and only if there are none. */
  lemma {:induction false} StoredZipBytesIsExact(entries: seq<Entry>)
    ensures |Zip(entries)| == BytesTo(SizesOf(entries), |entries|)
       <==> !NeedsZip64(|entries|, CentralOffset(entries), |Directory(entries)|)
    ensures |Zip(entries)| == BytesTo(SizesOf(entries), |entries|) + 12 * FarTo(entries, |entries|)
         + if NeedsZip64(|entries|, CentralOffset(entries), |Directory(entries)|) then 76 else 0
  {
    LocalsLength(entries, |entries|);
    PartsLength(entries, |entries|);
    EndLength(|entries|, CentralOffset(entries), |Directory(entries)|);
  }

  // ---- the walk of the local headers ----

  /** The contents by name, a later entry of one name over an earlier. */
  function ContentsTo(entries: seq<Entry>, n: nat): map<seq<byte>, seq<byte>>
    requires n <= |entries|
  {
    if n == 0 then map[] else ContentsTo(entries, n - 1)[entries[n - 1].name := entries[n - 1].bytes]
  }

  predicate EntryHeaderAt(buffer: seq<byte>, offset: nat)
  {
    offset + 30 <= |buffer| && Read(buffer, offset, 4) == LOCAL_SIGNATURE
  }

  /** Where an entry's content starts and ends, as its local header says. */
  function DataStart(buffer: seq<byte>, offset: nat): nat
    requires offset + 30 <= |buffer|
  {
    offset + 30 + Read(buffer, offset + 26, 2) + Read(buffer, offset + 28, 2)
  }

  function DataEnd(buffer: seq<byte>, offset: nat): nat
    requires offset + 30 <= |buffer|
  {
    DataStart(buffer, offset) + Read(buffer, offset + 18, 4)
  }

  function Walk(buffer: seq<byte>, offset: nat, entries: map<seq<byte>, seq<byte>>): Result<map<seq<byte>, seq<byte>>>
    decreases |buffer| - offset
  {
    if !EntryHeaderAt(buffer, offset) then Ok(entries)
    else if DataEnd(buffer, offset) > |buffer| then Error
    else
      var name := buffer[offset + 30..offset + 30 + Read(buffer, offset + 26, 2)];
      Walk(buffer, DataEnd(buffer, offset), entries[name := buffer[DataStart(buffer, offset)..DataEnd(buffer, offset)]])
  }

  /** `readStoredZip`, on any bytes at all: every read is in bounds and the walk ends. */
  method ReadStoredZip(buffer: seq<byte>) returns (r: Result<map<seq<byte>, seq<byte>>>)
    ensures r == Walk(buffer, 0, map[])
  {
    var entries: map<seq<byte>, seq<byte>>, offset := map[], 0;
    while offset + 30 <= |buffer| && Read(buffer, offset, 4) == LOCAL_SIGNATURE
      invariant Walk(buffer, offset, entries) == Walk(buffer, 0, map[])
      decreases |buffer| - offset
    {
      var size := Read(buffer, offset + 18, 4);
      var nameLength := Read(buffer, offset + 26, 2);
      var nameStart := offset + 30;
      var dataStart := nameStart + nameLength + Read(buffer, offset + 28, 2);
      var dataEnd := dataStart + size;
      if dataEnd > |buffer| {
        return Error;
      }
      var name := buffer[nameStart..nameStart + nameLength];
      entries := entries[name := buffer[dataStart..dataEnd]];
      offset := dataEnd;
    }
    r := Ok(entries);
  }
}
