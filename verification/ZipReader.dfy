// A reader of stored zips written from PKWARE APPNOTE.TXT (sections 4.3.7, 4.3.12, 4.3.14 to
// 4.3.16, 4.4.1.4 and 4.5.3), and what it makes of the files StoredZip writes.
module ZipReader {
  import opened Options
  import opened Bytes
  import opened StoredZip

  // ---- what a buffer that holds the records reads ----

  lemma {:induction false} SmallFits(n: nat)
    ensures n <= ALL16 ==> Fits(n, 2)
    ensures n <= ALL32 ==> Fits(n, 4)
    ensures n < 0x1_0000_0000_0000_0000 ==> Fits(n, 8)
  {
    FitsBounds(n);
  }

  /** The fields of a local file header, section 4.3.7. */
  lemma {:induction false} LocalFields(buffer: seq<byte>, p: nat, e: Entry, offset: nat)
    requires Writable(e) && Holds(buffer, p, Pack(LocalSlots(RecordOf(e, offset))))
    ensures p + 30 <= |buffer|
    ensures Read(buffer, p, 4) == LOCAL_SIGNATURE
    ensures Read(buffer, p + 8, 2) == 0
    ensures Read(buffer, p + 14, 4) == e.crc && Read(buffer, p + 18, 4) == |e.bytes|
    ensures Read(buffer, p + 26, 2) == |e.name| && Read(buffer, p + 28, 2) == 0
  {
    var s := LocalSlots(RecordOf(e, offset));
    LocalStarts(RecordOf(e, offset));
    SmallFits(LOCAL_SIGNATURE);
    SmallFits(0);
    SmallFits(e.crc);
    SmallFits(|e.bytes|);
    SmallFits(|e.name|);
    ReadsSlot(buffer, p, s, 11, 0);
    ReadsSlot(buffer, p, s, 11, 3);
    ReadsSlot(buffer, p, s, 11, 6);
    ReadsSlot(buffer, p, s, 11, 7);
    ReadsSlot(buffer, p, s, 11, 9);
    ReadsSlot(buffer, p, s, 11, 10);
  }

  lemma {:induction false} ZipHolds(entries: seq<Entry>)
    ensures var zip, at, d := Zip(entries), CentralOffset(entries), Directory(entries);
            && Holds(zip, 0, LocalsTo(entries, |entries|))
            && Holds(zip, at, d)
            && Holds(zip, at + |d|, EndOf(entries))
            && |zip| == at + |d| + |EndOf(entries)|
  {
    var zip, locals, d, end := Zip(entries), LocalsTo(entries, |entries|), Directory(entries), EndOf(entries);
    LocalsLength(entries, |entries|);
    assert Holds(zip, 0, locals + (d + end));
    HoldsSplit(zip, 0, locals, d + end);
    HoldsSplit(zip, |locals|, d, end);
  }

  lemma {:induction false} HoldsEntry(buffer: seq<byte>, entries: seq<Entry>, n: nat, i: nat)
    requires i < n <= |entries| && Holds(buffer, 0, LocalsTo(entries, n))
    ensures HoldsEntryAt(buffer, entries[i], OffsetOf(entries, i))
  {
    var r := RecordAt(entries, n - 1);
    LocalsLength(entries, n - 1);
    HoldsSplit(buffer, 0, LocalsTo(entries, n - 1), LocalHeader(r) + entries[n - 1].bytes);
    if i == n - 1 {
      HoldsOne(buffer, entries[i], OffsetOf(entries, i));
    } else {
      HoldsEntry(buffer, entries, n - 1, i);
    }
  }

  lemma {:induction false} HoldsOne(buffer: seq<byte>, e: Entry, at: nat)
    requires Holds(buffer, at, LocalHeader(RecordOf(e, at)) + e.bytes)
    ensures HoldsEntryAt(buffer, e, at)
  {
    var r := RecordOf(e, at);
    LocalLength(r);
    HoldsSplit(buffer, at, LocalHeader(r), e.bytes);
    HoldsSplit(buffer, at, Pack(LocalSlots(r)), r.name);
  }

  // ---- the in-memory walk gives the files back ----

  /** What follows the entries is no entry. */
  lemma {:induction false} WalkStops(entries: seq<Entry>)
    requires Representable(entries)
    ensures !EntryHeaderAt(Zip(entries), CentralOffset(entries))
  {
    var zip, at, d := Zip(entries), CentralOffset(entries), Directory(entries);
    ZipHolds(entries);
    EndLength(|entries|, at, |d|);
    if |entries| == 0 {
      assert |zip| < 30;
    } else {
      HoldsCentral(zip, at, entries, |entries|, 0);
      CentralSignature(zip, at, RecordAt(entries, 0));
    }
  }

  lemma {:induction false} CentralSignature(buffer: seq<byte>, p: nat, r: Record)
    requires Holds(buffer, p, CentralRecord(r))
    ensures p + 4 <= |buffer| && Read(buffer, p, 4) == CENTRAL_SIGNATURE
  {
    var s := CentralSlots(r);
    CentralStarts(r);
    SmallFits(CENTRAL_SIGNATURE);
    HoldsSplit(buffer, p, Pack(s), r.name + if FarOffset(r) then Pack(ExtraSlots(r)) else []);
    ReadsSlot(buffer, p, s, 17, 0);
  }

  lemma {:induction false} HoldsCentral(buffer: seq<byte>, at: nat, entries: seq<Entry>, n: nat, i: nat)
    requires i < n <= |entries| && Holds(buffer, at, DirectoryTo(entries, n))
    ensures Holds(buffer, at + |DirectoryTo(entries, i)|, CentralRecord(RecordAt(entries, i)))
  {
    var before, last := DirectoryTo(entries, n - 1), CentralRecord(RecordAt(entries, n - 1));
    assert DirectoryTo(entries, n) == before + last;
    HoldsSplit(buffer, at, before, last);
    if i < n - 1 {
      HoldsCentral(buffer, at, entries, n - 1, i);
    }
  }

  lemma {:induction false} WalkFrom(entries: seq<Entry>, i: nat)
    requires Representable(entries) && i <= |entries|
    ensures Walk(Zip(entries), OffsetOf(entries, i), ContentsTo(entries, i)) == Ok(ContentsTo(entries, |entries|))
    decreases |entries| - i
  {
    if i == |entries| {
      WalkStops(entries);
    } else {
      WalkEntry(entries, i);
      WalkFrom(entries, i + 1);
    }
  }

  lemma {:induction false} WalkEntry(entries: seq<Entry>, i: nat)
    requires Representable(entries) && i < |entries|
    ensures Walk(Zip(entries), OffsetOf(entries, i), ContentsTo(entries, i))
            == Walk(Zip(entries), OffsetOf(entries, i + 1), ContentsTo(entries, i + 1))
  {
    ZipHoldsEntry(entries, i);
    WalkStep(Zip(entries), entries[i], OffsetOf(entries, i), ContentsTo(entries, i));
  }

  lemma {:induction false} ZipHoldsEntry(entries: seq<Entry>, i: nat)
    requires Representable(entries) && i < |entries|
    ensures HoldsEntryAt(Zip(entries), entries[i], OffsetOf(entries, i)) && Writable(entries[i])
  {
    ZipHolds(entries);
    HoldsEntry(Zip(entries), entries, |entries|, i);
  }

  /** A local header and a content stand at an offset. */
  predicate HoldsEntryAt(b: seq<byte>, e: Entry, p: nat)
  {
    Holds(b, p, Pack(LocalSlots(RecordOf(e, p)))) && Holds(b, p + 30, e.name) && Holds(b, p + 30 + |e.name|, e.bytes)
  }

  lemma {:induction false} WalkStep(b: seq<byte>, e: Entry, p: nat, contents: map<seq<byte>, seq<byte>>)
    requires Writable(e) && HoldsEntryAt(b, e, p)
    ensures Walk(b, p, contents) == Walk(b, p + PartLength(e), contents[e.name := e.bytes])
  {
    LocalFields(b, p, e, p);
    assert DataStart(b, p) == p + 30 + |e.name| && DataEnd(b, p) == p + PartLength(e);
  }

  lemma {:induction false} ContentsByName(entries: seq<Entry>, n: nat)
    requires n <= |entries|
    requires forall i, j :: 0 <= i < j < |entries| ==> entries[i].name != entries[j].name
    ensures forall i :: 0 <= i < n ==>
              entries[i].name in ContentsTo(entries, n) && ContentsTo(entries, n)[entries[i].name] == entries[i].bytes
    ensures forall name :: name in ContentsTo(entries, n) ==> exists i :: 0 <= i < n && entries[i].name == name
  {
    if n > 0 {
      ContentsByName(entries, n - 1);
    }
  }

  /**
   * Reading what was written gives the files back: every name with its content, and no other name,
   * Zip64 or not.
   */
  lemma {:induction false} WalkGivesFilesBack(entries: seq<Entry>)
    requires Representable(entries)
    requires forall i, j :: 0 <= i < j < |entries| ==> entries[i].name != entries[j].name
    ensures Walk(Zip(entries), 0, map[]).Ok?
    ensures var files := Walk(Zip(entries), 0, map[]).value;
            && (forall i :: 0 <= i < |entries| ==> entries[i].name in files && files[entries[i].name] == entries[i].bytes)
            && (forall name :: name in files ==> exists i :: 0 <= i < |entries| && entries[i].name == name)
  {
    WalkFrom(entries, 0);
    ContentsByName(entries, |entries|);
  }

  // ---- the reader of the standard ----

  /** The data of the extra field with one header id, section 4.5.1. */
  function ExtraField(extra: seq<byte>, id: nat): Option<seq<byte>>
  {
    if |extra| < 4 then None
    else
      var size := Read(extra, 2, 2);
      if 4 + size > |extra| then None
      else if Read(extra, 0, 2) == id then Some(extra[4..4 + size])
      else ExtraField(extra[4 + size..], id)
  }

  /** A Zip64 value: eight bytes at the front of what is left of the Zip64 extra field, section 4.5.3. */
  datatype Taken = Taken(value: nat, rest: seq<byte>)

  function TakeZip64(classic: nat, rest: seq<byte>): Option<Taken>
  {
    if classic != ALL32 then Some(Taken(classic, rest))
    else if |rest| < 8 then None
    else Some(Taken(Read(rest, 0, 8), rest[8..]))
  }

  /** What is left of the extra fields once the Zip64 one is found; nothing where there is none. */
  function Zip64Of(extra: seq<byte>): seq<byte>
  {
    match ExtraField(extra, 1) case None => [] case Some(data) => data
  }

  datatype Sizes = Sizes(size: nat, offset: nat)

  /** The two sizes, which agree when nothing is compressed, and the offset, each from the Zip64 field when all ones. */
  function TakeSizes(usize: nat, csize: nat, offset: nat, zip64: seq<byte>): Option<Sizes>
  {
    match TakeZip64(usize, zip64)
    case None => None
    case Some(u) =>
      match TakeZip64(csize, u.rest)
      case None => None
      case Some(c) =>
        match TakeZip64(offset, c.rest)
        case None => None
        case Some(o) => if u.value != c.value then None else Some(Sizes(c.value, o.value))
  }

  datatype Central = Central(name: seq<byte>, crc: nat, time: nat, date: nat, size: nat, offset: nat, next: nat)

  /** One central directory header, section 4.3.12, of an entry stored without compression. */
  function ReadCentral(b: seq<byte>, p: nat): Option<Central>
  {
    if p + 46 > |b| || Read(b, p, 4) != CENTRAL_SIGNATURE || Read(b, p + 10, 2) != 0 then None
    else
      var nameLength, extraLength, commentLength := Read(b, p + 28, 2), Read(b, p + 30, 2), Read(b, p + 32, 2);
      var next := p + 46 + nameLength + extraLength + commentLength;
      if next > |b| then None
      else
        var name := b[p + 46..p + 46 + nameLength];
        var extra := b[p + 46 + nameLength..p + 46 + nameLength + extraLength];
        match TakeSizes(Read(b, p + 24, 4), Read(b, p + 20, 4), Read(b, p + 42, 4), Zip64Of(extra))
        case None => None
        case Some(far) =>
          Some(Central(name, Read(b, p + 16, 4), Read(b, p + 12, 2), Read(b, p + 14, 2), far.size, far.offset, next))
  }

  /** The entry a directory header points at, when a local header that agrees with it is there. */
  function ReadLocal(b: seq<byte>, c: Central): Option<Entry>
  {
    var p := c.offset;
    if p + 30 > |b| || Read(b, p, 4) != LOCAL_SIGNATURE || Read(b, p + 8, 2) != 0 then None
    else if Read(b, p + 14, 4) != c.crc || Read(b, p + 18, 4) != c.size then None
    else
      var nameLength, extraLength := Read(b, p + 26, 2), Read(b, p + 28, 2);
      var start := p + 30 + nameLength + extraLength;
      if start + c.size > |b| || b[p + 30..p + 30 + nameLength] != c.name then None
      else Some(Entry(c.name, b[start..start + c.size], c.crc, c.time, c.date))
  }

  /** An entry read from the directory, and where the next directory header starts. */
  datatype Found = Found(entry: Entry, next: nat)

  function ReadEntry(b: seq<byte>, p: nat): Option<Found>
  {
    match ReadCentral(b, p)
    case None => None
    case Some(c) =>
      match ReadLocal(b, c)
      case None => None
      case Some(e) => Some(Found(e, c.next))
  }

  /** `count` entries in turn, the first at `p`; one that cannot be read refuses the whole list. */
  function ReadAll(read: nat -> Option<Found>, p: nat, count: nat): Option<seq<Entry>>
    decreases count
  {
    if count == 0 then Some([])
    else
      match read(p)
      case None => None
      case Some(found) =>
        match ReadAll(read, found.next, count - 1)
        case None => None
        case Some(rest) => Some([found.entry] + rest)
  }

  function EntryReader(b: seq<byte>): nat -> Option<Found>
  {
    (p: nat) => ReadEntry(b, p)
  }

  function ReadDirectory(b: seq<byte>, p: nat, count: nat): Option<seq<Entry>>
  {
    ReadAll(EntryReader(b), p, count)
  }

  /** The last end record whose comment reaches the end of the file, section 4.3.16. */
  function FindEnd(b: seq<byte>, p: nat): (r: Option<nat>)
    requires p + 22 <= |b|
    ensures r.Some? ==> r.value <= p
  {
    if Read(b, p, 4) == END_SIGNATURE && p + 22 + Read(b, p + 20, 2) == |b| then Some(p)
    else if p == 0 then None
    else FindEnd(b, p - 1)
  }

  datatype Where = Where(count: nat, offset: nat)

  /** The directory's count and place: from the Zip64 end record when a classic field is all ones. */
  function ReadWhere(b: seq<byte>, p: nat): Option<Where>
    requires p + 22 <= |b|
  {
    var count, size, offset := Read(b, p + 10, 2), Read(b, p + 12, 4), Read(b, p + 16, 4);
    if count != ALL16 && size != ALL32 && offset != ALL32 then Some(Where(count, offset))
    else if p < 20 || Read(b, p - 20, 4) != LOCATOR_SIGNATURE then None
    else
      var q := Read(b, p - 12, 8);
      if q + 56 > |b| || Read(b, q, 4) != ZIP64_END_SIGNATURE then None
      else Some(Where(Read(b, q + 32, 8), Read(b, q + 48, 8)))
  }

  function ReadZip(b: seq<byte>): Option<seq<Entry>>
  {
    if |b| < 22 then None
    else
      match FindEnd(b, |b| - 22)
      case None => None
      case Some(p) =>
        match ReadWhere(b, p)
        case None => None
        case Some(w) => ReadDirectory(b, w.offset, w.count)
  }

  // ---- what the reader makes of the files written ----

  lemma {:induction false} CentralFields(b: seq<byte>, p: nat, e: Entry, offset: nat)
    requires Writable(e) && Holds(b, p, Pack(CentralSlots(RecordOf(e, offset))))
    ensures p + 46 <= |b| && Read(b, p, 4) == CENTRAL_SIGNATURE && Read(b, p + 10, 2) == 0
    ensures Read(b, p + 12, 2) == e.time && Read(b, p + 14, 2) == e.date && Read(b, p + 16, 4) == e.crc
    ensures Read(b, p + 20, 4) == |e.bytes| && Read(b, p + 24, 4) == |e.bytes|
  {
    var s := CentralSlots(RecordOf(e, offset));
    CentralStarts(RecordOf(e, offset));
    SmallFits(CENTRAL_SIGNATURE);
    SmallFits(0);
    SmallFits(e.time);
    SmallFits(e.date);
    SmallFits(e.crc);
    SmallFits(|e.bytes|);
    ReadsSlot(b, p, s, 17, 0);
    ReadsSlot(b, p, s, 17, 4);
    ReadsSlot(b, p, s, 17, 5);
    ReadsSlot(b, p, s, 17, 6);
    ReadsSlot(b, p, s, 17, 7);
    ReadsSlot(b, p, s, 17, 8);
    ReadsSlot(b, p, s, 17, 9);
  }

  lemma {:induction false} CentralLengths(b: seq<byte>, p: nat, e: Entry, offset: nat)
    requires Writable(e) && Holds(b, p, Pack(CentralSlots(RecordOf(e, offset))))
    ensures p + 46 <= |b| && Read(b, p + 28, 2) == |e.name|
    ensures Read(b, p + 30, 2) == (if offset >= ALL32 then 12 else 0) && Read(b, p + 32, 2) == 0
    ensures Read(b, p + 42, 4) == Capped(offset, ALL32)
  {
    var s := CentralSlots(RecordOf(e, offset));
    CentralStarts(RecordOf(e, offset));
    SmallFits(0);
    SmallFits(12);
    SmallFits(|e.name|);
    SmallFits(Capped(offset, ALL32));
    ReadsSlot(b, p, s, 17, 10);
    ReadsSlot(b, p, s, 17, 11);
    ReadsSlot(b, p, s, 17, 12);
    ReadsSlot(b, p, s, 17, 16);
  }

  /** The Zip64 extra field of a far entry holds its offset and nothing else. */
  lemma {:induction false} ExtraReads(r: Record)
    requires r.offset < 0x1_0000_0000_0000_0000
    ensures var extra := Pack(ExtraSlots(r));
            |extra| == 12 && ExtraField(extra, 1) == Some(extra[4..12]) && Read(extra[4..12], 0, 8) == r.offset
  {
    var s := ExtraSlots(r);
    var extra := Pack(s);
    ExtraStarts(r);
    SmallFits(1);
    SmallFits(8);
    SmallFits(r.offset);
    assert Holds(extra, 0, extra);
    ReadsSlot(extra, 0, s, 3, 0);
    ReadsSlot(extra, 0, s, 3, 1);
    ReadsSlot(extra, 0, s, 3, 2);
    assert extra[4..12][0..8] == extra[4..12];
  }

  /**
   * A directory header reads back whole, Zip64 offset included, unless the content is exactly
   * 4 GiB less one byte: its size field is all ones and no Zip64 field says the size.
   */
  lemma {:induction false} CentralReads(b: seq<byte>, p: nat, e: Entry, offset: nat)
    requires Writable(e) && offset < 0x1_0000_0000_0000_0000
    requires Holds(b, p, CentralRecord(RecordOf(e, offset)))
    ensures ReadCentral(b, p)
         == if |e.bytes| == ALL32 then None
            else Some(CentralOf(e, offset, p + |CentralRecord(RecordOf(e, offset))|))
  {
    CentralIsThere(b, p, e, offset);
    CentralOfFields(b, p, e, offset);
    HoldsCentralParts(b, p, RecordOf(e, offset));
  }

  /** The fields of a directory header, its name and its extra field. */
  predicate HasCentralFields(b: seq<byte>, p: nat, e: Entry, offset: nat)
  {
    var extra := ExtraOf(RecordOf(e, offset));
    && p + 46 + |e.name| + |extra| <= |b| && Read(b, p, 4) == CENTRAL_SIGNATURE && Read(b, p + 10, 2) == 0
    && Read(b, p + 12, 2) == e.time && Read(b, p + 14, 2) == e.date && Read(b, p + 16, 4) == e.crc
    && Read(b, p + 20, 4) == |e.bytes| && Read(b, p + 24, 4) == |e.bytes|
    && Read(b, p + 28, 2) == |e.name| && Read(b, p + 30, 2) == |extra| && Read(b, p + 32, 2) == 0
    && Read(b, p + 42, 4) == Capped(offset, ALL32)
    && b[p + 46..p + 46 + |e.name|] == e.name && b[p + 46 + |e.name|..p + 46 + |e.name| + |extra|] == extra
  }

  lemma {:induction false} CentralIsThere(b: seq<byte>, p: nat, e: Entry, offset: nat)
    requires Writable(e) && Holds(b, p, CentralRecord(RecordOf(e, offset)))
    ensures HasCentralFields(b, p, e, offset)
  {
    HoldsCentralParts(b, p, RecordOf(e, offset));
    CentralFields(b, p, e, offset);
    CentralLengths(b, p, e, offset);
  }

  lemma {:induction false} CentralOfFields(b: seq<byte>, p: nat, e: Entry, offset: nat)
    requires HasCentralFields(b, p, e, offset) && offset < 0x1_0000_0000_0000_0000
    ensures ReadCentral(b, p)
         == if |e.bytes| == ALL32 then None
            else Some(CentralOf(e, offset, p + 46 + |e.name| + |ExtraOf(RecordOf(e, offset))|))
  {
    CentralHeaderReads(b, p, e.name, ExtraOf(RecordOf(e, offset)));
    SizesRead(e, offset);
  }

  /** A directory header without a comment, from its name and its extra field. */
  lemma {:induction false} CentralHeaderReads(b: seq<byte>, p: nat, name: seq<byte>, extra: seq<byte>)
    requires p + 46 + |name| + |extra| <= |b| && Read(b, p, 4) == CENTRAL_SIGNATURE && Read(b, p + 10, 2) == 0
    requires Read(b, p + 28, 2) == |name| && Read(b, p + 30, 2) == |extra| && Read(b, p + 32, 2) == 0
    requires b[p + 46..p + 46 + |name|] == name && b[p + 46 + |name|..p + 46 + |name| + |extra|] == extra
    ensures ReadCentral(b, p) ==
      match TakeSizes(Read(b, p + 24, 4), Read(b, p + 20, 4), Read(b, p + 42, 4), Zip64Of(extra))
      case None => None
      case Some(far) =>
        Some(Central(name, Read(b, p + 16, 4), Read(b, p + 12, 2), Read(b, p + 14, 2), far.size, far.offset,
                     p + 46 + |name| + |extra|))
  {
  }

  /** A content whose size field is all ones has no Zip64 size: the field holds an offset or is not there. */
  lemma {:induction false} SizesRead(e: Entry, offset: nat)
    requires offset < 0x1_0000_0000_0000_0000
    ensures TakeSizes(|e.bytes|, |e.bytes|, Capped(offset, ALL32), Zip64Of(ExtraOf(RecordOf(e, offset))))
         == if |e.bytes| == ALL32 then None else Some(Sizes(|e.bytes|, offset))
  {
    if FarOffset(RecordOf(e, offset)) {
      ExtraReads(RecordOf(e, offset));
    }
  }

  /** The extra field of a directory record. */
  function ExtraOf(r: Record): seq<byte>
  {
    if FarOffset(r) then Pack(ExtraSlots(r)) else []
  }

  lemma {:induction false} HoldsCentralParts(b: seq<byte>, p: nat, r: Record)
    requires Holds(b, p, CentralRecord(r))
    ensures Holds(b, p, Pack(CentralSlots(r))) && |ExtraOf(r)| == (if FarOffset(r) then 12 else 0)
    ensures p + 46 + |r.name| + |ExtraOf(r)| <= |b| && |CentralRecord(r)| == 46 + |r.name| + |ExtraOf(r)|
    ensures b[p + 46..p + 46 + |r.name|] == r.name
    ensures b[p + 46 + |r.name|..p + 46 + |r.name| + |ExtraOf(r)|] == ExtraOf(r)
  {
    CentralLength(r);
    HoldsSplit(b, p, Pack(CentralSlots(r)), r.name + ExtraOf(r));
    HoldsSplit(b, p + 46, r.name, ExtraOf(r));
  }

  function CentralOf(e: Entry, offset: nat, next: nat): Central
  {
    Central(e.name, e.crc, e.time, e.date, |e.bytes|, offset, next)
  }

  lemma {:induction false} LocalReads(b: seq<byte>, e: Entry, p: nat, next: nat)
    requires Writable(e) && HoldsEntryAt(b, e, p)
    ensures ReadLocal(b, CentralOf(e, p, next)) == Some(e)
  {
    LocalFields(b, p, e, p);
  }

  /** No entry holds exactly 4 GiB less one byte: the guard a caller can check. */
  predicate SizesReadable(entries: seq<Entry>, from: nat)
    requires from <= |entries|
  {
    forall i :: from <= i < |entries| ==> |entries[i].bytes| != ALL32
  }

  /** Where directory record `i` starts. */
  function CentralAt(entries: seq<Entry>, i: nat): nat
    requires i <= |entries|
  {
    CentralOffset(entries) + |DirectoryTo(entries, i)|
  }

  /** A buffer that holds the entries and their directory where the writer puts them. */
  predicate HoldsParts(b: seq<byte>, entries: seq<Entry>)
  {
    Holds(b, 0, LocalsTo(entries, |entries|)) && Holds(b, CentralOffset(entries), Directory(entries))
  }

  /** An entry whose directory record is at `p` and whose local header and content are at `offset`. */
  predicate Placed(b: seq<byte>, e: Entry, offset: nat, p: nat)
  {
    Holds(b, p, CentralRecord(RecordOf(e, offset))) && HoldsEntryAt(b, e, offset)
  }

  function CentralSize(e: Entry, offset: nat): nat
  {
    |CentralRecord(RecordOf(e, offset))|
  }

  /** The two headers of an entry, read one after the other. */
  lemma {:induction false} EntryReads(b: seq<byte>, e: Entry, c: Central, p: nat)
    requires ReadCentral(b, p) == if |e.bytes| == ALL32 then None else Some(c)
    requires ReadLocal(b, c) == Some(e)
    ensures Finds(EntryReader(b), e, p, c.next)
  {
  }

  lemma {:induction false} EntryIsPlaced(b: seq<byte>, entries: seq<Entry>, i: nat)
    requires i < |entries| && Representable(entries) && HoldsParts(b, entries)
    ensures OffsetOf(entries, i) < 0x1_0000_0000_0000_0000
    ensures Placed(b, entries[i], OffsetOf(entries, i), CentralAt(entries, i))
    ensures CentralAt(entries, i + 1) == CentralAt(entries, i) + CentralSize(entries[i], OffsetOf(entries, i))
    ensures Writable(entries[i])
  {
    OffsetsGrow(entries, i, |entries|);
    HoldsCentral(b, CentralOffset(entries), entries, |entries|, i);
    HoldsEntry(b, entries, |entries|, i);
  }

  /** A reader that finds `e` at `p`, unless it cannot tell the size. */
  predicate Finds(read: nat -> Option<Found>, e: Entry, p: nat, next: nat)
  {
    read(p) == if |e.bytes| == ALL32 then None else Some(Found(e, next))
  }

  lemma {:induction false} PlacedIsFound(b: seq<byte>, e: Entry, offset: nat, p: nat, next: nat)
    requires Writable(e) && offset < 0x1_0000_0000_0000_0000 && Placed(b, e, offset, p)
    requires next == p + CentralSize(e, offset)
    ensures Finds(EntryReader(b), e, p, next)
  {
    PlacedReads(b, e, offset, p, next);
    EntryReads(b, e, CentralOf(e, offset, next), p);
  }

  lemma {:induction false} PlacedReads(b: seq<byte>, e: Entry, offset: nat, p: nat, next: nat)
    requires Writable(e) && offset < 0x1_0000_0000_0000_0000 && Placed(b, e, offset, p)
    requires next == p + CentralSize(e, offset)
    ensures ReadCentral(b, p) == if |e.bytes| == ALL32 then None else Some(CentralOf(e, offset, next))
    ensures ReadLocal(b, CentralOf(e, offset, next)) == Some(e)
  {
    CentralReads(b, p, e, offset);
    LocalReads(b, e, offset, next);
  }

  /** Reading entry after entry, from where one starts to where the next does. */
  lemma {:induction false} StepsGiveList(entries: seq<Entry>, read: nat -> Option<Found>, starts: seq<nat>, i: nat)
    requires i <= |entries| && FoundAtEach(entries, read, starts)
    ensures ReadAll(read, starts[i], |entries| - i) == if SizesReadable(entries, i) then Some(entries[i..]) else None
    decreases |entries| - i
  {
    if i < |entries| {
      assert Finds(read, entries[i], starts[i], starts[i + 1]);
      StepsGiveList(entries, read, starts, i + 1);
      assert entries[i..] == [entries[i]] + entries[i + 1..];
      assert SizesReadable(entries, i) <==> |entries[i].bytes| != ALL32 && SizesReadable(entries, i + 1);
    } else {
      assert entries[i..] == [];
    }
  }

  ghost predicate FoundAtEach(entries: seq<Entry>, read: nat -> Option<Found>, starts: seq<nat>)
  {
    |starts| == |entries| + 1 && forall k :: 0 <= k < |entries| ==> Finds(read, entries[k], starts[k], starts[k + 1])
  }

  /** Where each directory record starts, and where the last one ends. */
  function Starts(entries: seq<Entry>): (starts: seq<nat>)
    ensures |starts| == |entries| + 1 && forall k :: 0 <= k <= |entries| ==> starts[k] == CentralAt(entries, k)
  {
    seq(|entries| + 1, k requires 0 <= k <= |entries| => CentralAt(entries, k))
  }

  lemma {:induction false} EntryIsFound(b: seq<byte>, entries: seq<Entry>, i: nat)
    requires i < |entries| && Representable(entries) && HoldsParts(b, entries)
    ensures Finds(EntryReader(b), entries[i], CentralAt(entries, i), CentralAt(entries, i + 1))
  {
    EntryIsPlaced(b, entries, i);
    PlacedIsFound(b, entries[i], OffsetOf(entries, i), CentralAt(entries, i), CentralAt(entries, i + 1));
  }

  lemma {:induction false} DirectoryReads(b: seq<byte>, entries: seq<Entry>)
    requires Representable(entries) && HoldsParts(b, entries)
    ensures ReadDirectory(b, CentralOffset(entries), |entries|)
         == if SizesReadable(entries, 0) then Some(entries) else None
  {
    var read := EntryReader(b);
    forall k | 0 <= k < |entries|
      ensures Finds(read, entries[k], CentralAt(entries, k), CentralAt(entries, k + 1))
    {
      EntryIsFound(b, entries, k);
    }
    FoundGivesList(entries, read);
  }

  lemma {:induction false} FoundGivesList(entries: seq<Entry>, read: nat -> Option<Found>)
    requires forall k :: 0 <= k < |entries| ==> Finds(read, entries[k], CentralAt(entries, k), CentralAt(entries, k + 1))
    ensures ReadAll(read, CentralOffset(entries), |entries|) == if SizesReadable(entries, 0) then Some(entries) else None
  {
    StepsGiveList(entries, read, Starts(entries), 0);
    assert entries[0..] == entries;
  }

  lemma {:induction false} EndReads(b: seq<byte>, p: nat, count: nat, centralOffset: nat, centralSize: nat)
    requires p + 22 == |b| && Holds(b, p, Pack(EndSlots(count, centralOffset, centralSize)))
    ensures FindEnd(b, p) == Some(p)
    ensures Read(b, p + 10, 2) == Capped(count, ALL16)
    ensures Read(b, p + 12, 4) == Capped(centralSize, ALL32) && Read(b, p + 16, 4) == Capped(centralOffset, ALL32)
  {
    var s := EndSlots(count, centralOffset, centralSize);
    EndStarts(count, centralOffset, centralSize);
    SmallFits(END_SIGNATURE);
    SmallFits(0);
    SmallFits(Capped(count, ALL16));
    SmallFits(Capped(centralSize, ALL32));
    SmallFits(Capped(centralOffset, ALL32));
    ReadsSlot(b, p, s, 8, 0);
    ReadsSlot(b, p, s, 8, 4);
    ReadsSlot(b, p, s, 8, 5);
    ReadsSlot(b, p, s, 8, 6);
    ReadsSlot(b, p, s, 8, 7);
  }

  lemma {:induction false} LocatorReads(b: seq<byte>, p: nat, centralOffset: nat, centralSize: nat)
    requires centralOffset + centralSize < 0x1_0000_0000_0000_0000
    requires Holds(b, p, Pack(LocatorSlots(centralOffset, centralSize)))
    ensures p + 20 <= |b| && Read(b, p, 4) == LOCATOR_SIGNATURE && Read(b, p + 8, 8) == centralOffset + centralSize
  {
    var s := LocatorSlots(centralOffset, centralSize);
    LocatorStarts(centralOffset, centralSize);
    SmallFits(LOCATOR_SIGNATURE);
    SmallFits(centralOffset + centralSize);
    SmallFits(1);
    ReadsSlot(b, p, s, 4, 0);
    ReadsSlot(b, p, s, 4, 2);
    ReadsSlot(b, p, s, 4, 3);
  }

  lemma {:induction false} Zip64EndReads(b: seq<byte>, p: nat, count: nat, centralOffset: nat, centralSize: nat)
    requires count < 0x1_0000_0000_0000_0000 && centralOffset < 0x1_0000_0000_0000_0000
    requires Holds(b, p, Pack(Zip64EndSlots(count, centralOffset, centralSize)))
    ensures p + 56 <= |b| && Read(b, p, 4) == ZIP64_END_SIGNATURE
    ensures Read(b, p + 32, 8) == count && Read(b, p + 48, 8) == centralOffset
  {
    var s := Zip64EndSlots(count, centralOffset, centralSize);
    Zip64EndStarts(count, centralOffset, centralSize);
    SmallFits(ZIP64_END_SIGNATURE);
    SmallFits(count);
    SmallFits(centralOffset);
    ReadsSlot(b, p, s, 10, 0);
    ReadsSlot(b, p, s, 10, 7);
    ReadsSlot(b, p, s, 10, 9);
  }

  /** The end records lead back to the directory, through the Zip64 ones when there are any. */
  lemma {:induction false} WhereReads(b: seq<byte>, count: nat, centralOffset: nat, centralSize: nat)
    requires count <= centralSize && centralOffset + centralSize < 0x1_0000_0000_0000_0000
    requires Holds(b, centralOffset + centralSize, EndRecords(count, centralOffset, centralSize))
    requires |b| == centralOffset + centralSize + |EndRecords(count, centralOffset, centralSize)|
    ensures |b| >= 22 && FindEnd(b, |b| - 22) == Some(|b| - 22)
    ensures ReadWhere(b, |b| - 22) == Some(Where(count, centralOffset))
  {
    var at, p := centralOffset + centralSize, |b| - 22;
    EndLength(count, centralOffset, centralSize);
    if NeedsZip64(count, centralOffset, centralSize) {
      var zip64, locator := Pack(Zip64EndSlots(count, centralOffset, centralSize)), Pack(LocatorSlots(centralOffset, centralSize));
      var end := Pack(EndSlots(count, centralOffset, centralSize));
      HoldsSplit(b, at, zip64, locator + end);
      HoldsSplit(b, at + 56, locator, end);
      LocatorReads(b, at + 56, centralOffset, centralSize);
      Zip64EndReads(b, at, count, centralOffset, centralSize);
    }
    EndReads(b, p, count, centralOffset, centralSize);
  }

  /**
   * The standard's reader gives back exactly the entries written, names, contents, checksums and
   * stamps, for every entry count and every size, Zip64 included, if and only if no content is
   * exactly 4 GiB less one byte. Past that guard it refuses the file.
   */
  lemma {:induction false} ReaderGivesEntriesBack(entries: seq<Entry>)
    requires Representable(entries)
    ensures ReadZip(Zip(entries)) == if SizesReadable(entries, 0) then Some(entries) else None
  {
    WhereIsWritten(entries);
    DirectoryIsWritten(entries);
    EndThenDirectory(Zip(entries), |entries|, CentralOffset(entries));
  }

  lemma {:induction false} DirectoryIsWritten(entries: seq<Entry>)
    requires Representable(entries)
    ensures ReadDirectory(Zip(entries), CentralOffset(entries), |entries|)
            == if SizesReadable(entries, 0) then Some(entries) else None
  {
    ZipHolds(entries);
    DirectoryReads(Zip(entries), entries);
  }

  lemma {:induction false} EndThenDirectory(b: seq<byte>, count: nat, offset: nat)
    requires |b| >= 22 && FindEnd(b, |b| - 22) == Some(|b| - 22)
    requires ReadWhere(b, |b| - 22) == Some(Where(count, offset))
    ensures ReadZip(b) == ReadDirectory(b, offset, count)
  {
  }

  lemma {:induction false} WhereIsWritten(entries: seq<Entry>)
    requires Representable(entries)
    ensures var zip := Zip(entries);
            && |zip| >= 22 && FindEnd(zip, |zip| - 22) == Some(|zip| - 22)
            && ReadWhere(zip, |zip| - 22) == Some(Where(|entries|, CentralOffset(entries)))
  {
    ZipHolds(entries);
    DirectoryBoundsCount(entries, |entries|);
    WhereReads(Zip(entries), |entries|, CentralOffset(entries), |Directory(entries)|);
  }
}
