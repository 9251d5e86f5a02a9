/**
 The redundant GPT of src/partition/gpt.cpp: reading the two sides, and write_pair, which replaces
 the backup side, flushes, then replaces the primary. Layout per sections 5.3.2 and 5.3.3 of the
 UEFI Specification 2.10.
 */
module Gpt {
  import opened Storage
  import opened Arithmetic

  /** The header fields the two sides share or derive from each other. */
  datatype Header = Header(
    revision: nat, size: nat, current: nat, backup: nat, firstUsable: nat, lastUsable: nat,
    guid: nat, arrayLba: nat, count: nat, entrySize: nat, arrayCrc: nat)

  /** One sector's worth of the entry array. */
  type Data = seq<nat>

  /** A sector whose header checksum fails is the same as a torn one. */
  datatype Sector = HeaderSector(h: Header) | ArraySector(data: Data) | OtherSector

  datatype Disk = Disk(total: nat, sectorSize: nat)

  type DiskImage = Image<nat, Sector>

  /** Everything a table is read from. */
  datatype Content = Content(
    revision: nat, size: nat, firstUsable: nat, lastUsable: nat, guid: nat, count: nat, entrySize: nat, entries: seq<Data>)

  function ContentOf(h: Header, entries: seq<Data>): Content {
    Content(h.revision, h.size, h.firstUsable, h.lastUsable, h.guid, h.count, h.entrySize, entries)
  }

  function ArraySectors(count: nat, entrySize: nat, sectorSize: nat): nat
    requires sectorSize > 0
  {
    (count * entrySize + sectorSize - 1) / sectorSize
  }

  // ---------- reading ----------

  predicate ArrayCell(img: DiskImage, k: nat) {
    k in img && img[k].Intact? && img[k].value.ArraySector?
  }

  predicate ArrayIntact(img: DiskImage, lba: nat, n: nat) {
    forall k :: lba <= k < lba + n ==> ArrayCell(img, k)
  }

  function ArrayAt(img: DiskImage, lba: nat, n: nat): (r: seq<Data>)
    requires ArrayIntact(img, lba, n)
    ensures |r| == n
  {
    seq(n, i requires 0 <= i < n => assert ArrayCell(img, lba + i); img[lba + i].value.data)
  }

  predicate HeaderSane(d: Disk, h: Header, lba: nat)
    requires d.sectorSize > 0
  {
    && 92 <= h.size <= d.sectorSize && h.current == lba
    && 128 <= h.entrySize <= 4096 && 0 < h.count <= 16384
    && h.count * h.entrySize <= 64 * 1024 * 1024
    && h.arrayLba < d.total && ArraySectors(h.count, h.entrySize, d.sectorSize) <= d.total - h.arrayLba
  }

  /** validate_side_geometry. */
  predicate SideGeometryOk(d: Disk, h: Header)
    requires d.sectorSize > 0
  {
    var n := ArraySectors(h.count, h.entrySize, d.sectorSize);
    && h.backup < d.total && h.backup != h.current
    && h.firstUsable <= h.lastUsable < d.total
    && (h.arrayLba + n - 1 < h.firstUsable || h.arrayLba > h.lastUsable)
    && !(h.firstUsable <= h.current <= h.lastUsable)
  }

  datatype Side = SideError | SideInvalid | SideValid(h: Header, entries: seq<Data>)

  /** read_side. What a torn header sector reads as is up to chance: an error, or an invalid side. */
  function ReadSide(img: DiskImage, d: Disk, lba: nat, crc: seq<Data> -> nat, tornIsError: bool): Side
    requires d.sectorSize > 0
  {
    if lba >= d.total || lba !in img then SideError
    else if img[lba].Torn? then (if tornIsError then SideError else SideInvalid)
    else if !img[lba].value.HeaderSector? then SideInvalid
    else
      var h := img[lba].value.h;
      if !HeaderSane(d, h, lba) || !SideGeometryOk(d, h) then SideError
      else
        var n := ArraySectors(h.count, h.entrySize, d.sectorSize);
        if ArrayIntact(img, h.arrayLba, n) && crc(ArrayAt(img, h.arrayLba, n)) == h.arrayCrc
        then SideValid(h, ArrayAt(img, h.arrayLba, n))
        else SideInvalid
  }

  /** sides_equal. */
  predicate SidesEqual(a: Side, b: Side)
    requires a.SideValid? && b.SideValid?
  {
    && ContentOf(a.h, a.entries) == ContentOf(b.h, b.entries)
    && a.h.backup == b.h.current && b.h.backup == a.h.current
  }

  datatype TableResult = NoTable | Table(content: Content)

  /** How the device answers where it is free to choose, and validate_entries. */
  datatype Reader = Reader(crc: seq<Data> -> nat, entriesOk: (Header, seq<Data>) -> bool, tornPrimary: bool, tornBackup: bool)

  /** read_redundant_table. */
  function ReadTable(img: DiskImage, d: Disk, rd: Reader): TableResult
    requires d.sectorSize > 0
  {
    if d.total < 2 then NoTable
    else
      var p := ReadSide(img, d, 1, rd.crc, rd.tornPrimary);
      var b := ReadSide(img, d, d.total - 1, rd.crc, rd.tornBackup);
      if p.SideError? || b.SideError? || (p.SideInvalid? && b.SideInvalid?) then NoTable
      else if p.SideValid? && !rd.entriesOk(p.h, p.entries) then NoTable
      else if b.SideValid? && !rd.entriesOk(b.h, b.entries) then NoTable
      else if p.SideValid? && b.SideValid? && !SidesEqual(p, b) then NoTable
      else if p.SideValid? then Table(ContentOf(p.h, p.entries))
      else Table(ContentOf(b.h, b.entries))
  }

  // ---------- exactly what is read ----------

  predicate ArraySectorAt(img: DiskImage, d: Disk, h: Header, k: nat, data: Data) {
    k < d.total && !(h.firstUsable <= k <= h.lastUsable) && k in img && img[k] == Intact(ArraySector(data))
  }

  /**
   A side is there: its header sector names itself and another one, header and array lie outside the
   usable area, and the array, just long enough for its entries, has the stored checksum.
   */
  predicate SideThere(img: DiskImage, d: Disk, lba: nat, crc: seq<Data> -> nat, h: Header, entries: seq<Data>) {
    && lba < d.total && lba in img && img[lba] == Intact(HeaderSector(h))
    && h.current == lba && h.backup < d.total && h.backup != lba
    && 92 <= h.size <= d.sectorSize && 128 <= h.entrySize <= 4096 && 1 <= h.count <= 16384
    && h.firstUsable <= h.lastUsable < d.total && !(h.firstUsable <= lba <= h.lastUsable)
    && (|entries| - 1) * d.sectorSize < h.count * h.entrySize <= |entries| * d.sectorSize
    && (forall i :: 0 <= i < |entries| ==> ArraySectorAt(img, d, h, h.arrayLba + i, entries[i]))
    && crc(entries) == h.arrayCrc
  }

  lemma JustEnough(count: nat, entrySize: nat, sectorSize: nat, n: nat)
    requires sectorSize > 0 && count > 0 && entrySize > 0
    ensures n == ArraySectors(count, entrySize, sectorSize) <==> (n - 1) * sectorSize < count * entrySize <= n * sectorSize
    ensures ArraySectors(count, entrySize, sectorSize) > 0
  {
    var b := count * entrySize;
    assert b > 0;
    var k := ArraySectors(count, entrySize, sectorSize);
    Euclid(b + sectorSize - 1, sectorSize);
    MulGap(n, k, sectorSize);
    MulGap(k, n, sectorSize);
    MulGap(n - 1, k - 1, sectorSize);
    MulGap(k - 1, n - 1, sectorSize);
    assert (k - 1) * sectorSize == k * sectorSize - sectorSize;
    assert (n - 1) * sectorSize == n * sectorSize - sectorSize;
  }

  lemma BytesBound(count: nat, entrySize: nat)
    requires count <= 16384 && entrySize <= 4096
    ensures count * entrySize <= 64 * 1024 * 1024
  {
    Monotone(count, 16384, entrySize);
  }

  /** read_side accepts exactly the sides that are there, however a torn sector would read. */
  lemma SideValidIff(img: DiskImage, d: Disk, lba: nat, crc: seq<Data> -> nat, torn: bool, h: Header, entries: seq<Data>)
    requires d.sectorSize > 0
    ensures ReadSide(img, d, lba, crc, torn) == SideValid(h, entries) <==> SideThere(img, d, lba, crc, h, entries)
  {
    if h.count > 0 && h.entrySize > 0 { JustEnough(h.count, h.entrySize, d.sectorSize, |entries|); }
    if h.count <= 16384 && h.entrySize <= 4096 { BytesBound(h.count, h.entrySize); }
    hide ArraySectors;
    if ReadSide(img, d, lba, crc, torn) == SideValid(h, entries) {
      var n := ArraySectors(h.count, h.entrySize, d.sectorSize);
      forall i | 0 <= i < |entries| ensures ArraySectorAt(img, d, h, h.arrayLba + i, entries[i]) {
        assert ArrayCell(img, h.arrayLba + i);
      }
    }
    if SideThere(img, d, lba, crc, h, entries) { ThereIsRead(img, d, lba, crc, torn, h, entries); }
  }

  lemma ThereIsRead(img: DiskImage, d: Disk, lba: nat, crc: seq<Data> -> nat, torn: bool, h: Header, entries: seq<Data>)
    requires d.sectorSize > 0 && SideThere(img, d, lba, crc, h, entries) && |entries| == ArraySectors(h.count, h.entrySize, d.sectorSize) > 0
    requires h.count * h.entrySize <= 64 * 1024 * 1024
    ensures ReadSide(img, d, lba, crc, torn) == SideValid(h, entries)
  {
    hide ArraySectors, ReadSide;
    ThereIsSane(img, d, lba, crc, h, entries);
    hide HeaderSane, SideGeometryOk;
    forall i | 0 <= i < |entries| ensures HoldsData(img, h.arrayLba + i, entries[i]) {
      assert ArraySectorAt(img, d, h, h.arrayLba + i, entries[i]);
    }
    SideReadsBack(img, d, h, entries, crc, torn);
  }

  lemma ThereIsSane(img: DiskImage, d: Disk, lba: nat, crc: seq<Data> -> nat, h: Header, entries: seq<Data>)
    requires d.sectorSize > 0 && SideThere(img, d, lba, crc, h, entries) && |entries| == ArraySectors(h.count, h.entrySize, d.sectorSize) > 0
    requires h.count * h.entrySize <= 64 * 1024 * 1024
    ensures HeaderSane(d, h, lba) && SideGeometryOk(d, h)
  {
    hide ArraySectors;
    var n := |entries|;
    var a, z := h.arrayLba, h.arrayLba + n - 1;
    assert ArraySectorAt(img, d, h, h.arrayLba + (n - 1), entries[n - 1]);
    assert ArraySectorAt(img, d, h, h.arrayLba + 0, entries[0]);
    var i := if a < h.firstUsable <= z then h.firstUsable - a else 0;
    assert ArraySectorAt(img, d, h, h.arrayLba + i, entries[i]);
  }

  /** The header names itself and another sector, its fields are reasonable, and it and its `n` array sectors leave the usable area alone. */
  predicate SoundHeader(d: Disk, lba: nat, h: Header, n: nat) {
    && h.current == lba && h.backup < d.total && h.backup != lba
    && 92 <= h.size <= d.sectorSize && 128 <= h.entrySize <= 4096 && 1 <= h.count <= 16384
    && h.firstUsable <= h.lastUsable < d.total && !(h.firstUsable <= lba <= h.lastUsable)
    && h.arrayLba + n <= d.total && forall k :: h.arrayLba <= k < h.arrayLba + n ==> Unusable(h, k)
  }

  predicate Unusable(h: Header, k: nat) { !(h.firstUsable <= k <= h.lastUsable) }

  /** A header that is there but not sound is an error; one whose array does not check is merely no side. */
  lemma SideFails(img: DiskImage, d: Disk, lba: nat, crc: seq<Data> -> nat, torn: bool, h: Header)
    requires d.sectorSize > 0 && lba < d.total && lba in img && img[lba] == Intact(HeaderSector(h))
    ensures h.count > 0 && h.entrySize > 0 ==>
      (ReadSide(img, d, lba, crc, torn) == SideError <==> !SoundHeader(d, lba, h, ArraySectors(h.count, h.entrySize, d.sectorSize)))
    ensures h.count == 0 || h.entrySize == 0 ==> ReadSide(img, d, lba, crc, torn) == SideError
  {
    if h.count > 0 && h.entrySize > 0 {
      JustEnough(h.count, h.entrySize, d.sectorSize, 0);
      if h.count <= 16384 && h.entrySize <= 4096 { BytesBound(h.count, h.entrySize); }
      hide ArraySectors;
      var n := ArraySectors(h.count, h.entrySize, d.sectorSize);
      var k := if h.arrayLba < h.firstUsable then h.firstUsable else h.arrayLba;
      assert !Unusable(h, k) <==> h.firstUsable <= k <= h.lastUsable;
    }
  }

  /** The two headers and arrays describe one table, and each header names the other. */
  predicate Agreeing(p: Header, pe: seq<Data>, b: Header, be: seq<Data>) {
    && p.revision == b.revision && p.size == b.size && p.firstUsable == b.firstUsable && p.lastUsable == b.lastUsable
    && p.guid == b.guid && p.count == b.count && p.entrySize == b.entrySize && pe == be
    && p.backup == b.current && b.backup == p.current
  }

  /**
   read_redundant_table, case by case: an error on either side, no valid side or refused entries give
   no table; two valid sides give one exactly when they agree; one valid side is believed.
   */
  lemma TableExactly(img: DiskImage, d: Disk, rd: Reader)
    requires d.sectorSize > 0 && d.total >= 2
    ensures var p, b := ReadSide(img, d, 1, rd.crc, rd.tornPrimary), ReadSide(img, d, d.total - 1, rd.crc, rd.tornBackup);
      && (p.SideError? || b.SideError? || (p.SideInvalid? && b.SideInvalid?) ==> ReadTable(img, d, rd) == NoTable)
      && (p.SideValid? && !rd.entriesOk(p.h, p.entries) ==> ReadTable(img, d, rd) == NoTable)
      && (b.SideValid? && !rd.entriesOk(b.h, b.entries) ==> ReadTable(img, d, rd) == NoTable)
      && (p.SideValid? && b.SideValid? && rd.entriesOk(p.h, p.entries) && rd.entriesOk(b.h, b.entries) ==>
            ReadTable(img, d, rd) == if Agreeing(p.h, p.entries, b.h, b.entries) then Table(AsTable(p.h, p.entries)) else NoTable)
      && (p.SideValid? && b.SideInvalid? && rd.entriesOk(p.h, p.entries) ==> ReadTable(img, d, rd) == Table(AsTable(p.h, p.entries)))
      && (p.SideInvalid? && b.SideValid? && rd.entriesOk(b.h, b.entries) ==> ReadTable(img, d, rd) == Table(AsTable(b.h, b.entries)))
  {
    hide ReadSide;
  }

  function AsTable(h: Header, entries: seq<Data>): (c: Content)
    ensures c.revision == h.revision && c.size == h.size && c.firstUsable == h.firstUsable && c.lastUsable == h.lastUsable
    ensures c.guid == h.guid && c.count == h.count && c.entrySize == h.entrySize && c.entries == entries
  {
    ContentOf(h, entries)
  }

  // ---------- writing ----------

  /** make_header from the side the write starts from. */
  function MakeHeader(h: Header, current: nat, backup: nat, arrayLba: nat, arrayCrc: nat): Header {
    Header(if h.revision != 0 then h.revision else 0x1_0000, if h.size != 0 then h.size else 92,
           current, backup, h.firstUsable, h.lastUsable, h.guid, arrayLba, h.count, h.entrySize, arrayCrc)
  }

  function Sectors(d: Disk, h: Header): nat
    requires d.sectorSize > 0
  {
    ArraySectors(h.count, h.entrySize, d.sectorSize)
  }

  /** Where write_pair puts the primary array: right below the usable area when there is room. */
  function PrimaryArray(d: Disk, h: Header): nat
    requires d.sectorSize > 0
  {
    var n := Sectors(d, h);
    if h.firstUsable > n && h.firstUsable - n >= 2 then h.firstUsable - n else 2
  }

  /** What the reader guarantees of any side it accepts, on a disk of at least 100 sectors. */
  predicate Fits(d: Disk, h: Header, entries: seq<Data>) {
    && d.sectorSize > 0 && d.total >= 100
    && 92 <= h.size <= d.sectorSize
    && 128 <= h.entrySize <= 4096 && 0 < h.count <= 16384 && h.count * h.entrySize <= 64 * 1024 * 1024
    && h.firstUsable <= h.lastUsable < d.total
    && |entries| == Sectors(d, h) && 0 < Sectors(d, h) <= d.total - 2
  }

  /** The side resize_partition and repair_redundancy hand to write_pair: the primary if it is valid, else the backup. */
  predicate StartsFrom(img: DiskImage, d: Disk, crc: seq<Data> -> nat, h: Header)
    requires d.sectorSize > 0 && d.total > 0
  {
    var p, b := ReadSide(img, d, 1, crc, false), ReadSide(img, d, d.total - 1, crc, false);
    if p.SideValid? then h == p.h else b.SideValid? && h == b.h
  }

  lemma ArrayNotEmpty(d: Disk, h: Header)
    requires d.sectorSize > 0 && h.count > 0 && h.entrySize > 0
    ensures Sectors(d, h) > 0
  {
    assert h.count * h.entrySize >= 1;
  }

  lemma HeaderOutside(img: DiskImage, a: nat, n: nat, lba: nat)
    requires ArrayIntact(img, a, n) && !ArrayCell(img, lba)
    ensures lba < a || a + n <= lba
  {
  }

  /** A valid side fits: its array leaves room for its own header and for one usable sector. */
  lemma ValidSideFits(img: DiskImage, d: Disk, crc: seq<Data> -> nat, lba: nat, entries: seq<Data>)
    requires d.sectorSize > 0 && d.total >= 100 && ReadSide(img, d, lba, crc, false).SideValid?
    requires |entries| == Sectors(d, ReadSide(img, d, lba, crc, false).h)
    ensures Fits(d, ReadSide(img, d, lba, crc, false).h, entries)
  {
    hide ArraySectors;
    var h := ReadSide(img, d, lba, crc, false).h;
    var n := Sectors(d, h);
    ArrayNotEmpty(d, h);
    assert ArrayIntact(img, h.arrayLba, n);
    HeaderOutside(img, h.arrayLba, n, lba);
  }

  lemma StartFits(img: DiskImage, d: Disk, crc: seq<Data> -> nat, h: Header, entries: seq<Data>)
    requires d.sectorSize > 0 && d.total >= 100 && StartsFrom(img, d, crc, h) && |entries| == Sectors(d, h)
    ensures Fits(d, h, entries)
  {
    hide ReadSide, Fits;
    if ReadSide(img, d, 1, crc, false).SideValid? {
      ValidSideFits(img, d, crc, 1, entries);
    } else {
      ValidSideFits(img, d, crc, d.total - 1, entries);
    }
  }

  function BackupArray(d: Disk, h: Header, entries: seq<Data>): nat
    requires Fits(d, h, entries)
  {
    d.total - 1 - Sectors(d, h)
  }

  function ArrayWrites(entries: seq<Data>, lba: nat): (r: seq<(nat, Sector)>)
    ensures |r| == |entries|
    ensures forall i :: 0 <= i < |r| ==> r[i] == (lba + i, ArraySector(entries[i]))
  {
    seq(|entries|, i requires 0 <= i < |entries| => (lba + i, ArraySector(entries[i])))
  }

  function SideWrites(entries: seq<Data>, h: Header): (r: seq<(nat, Sector)>) {
    ArrayWrites(entries, h.arrayLba) + [(h.current, HeaderSector(h))]
  }

  function BackupHeader(d: Disk, h: Header, entries: seq<Data>, crc: seq<Data> -> nat): Header
    requires Fits(d, h, entries)
  {
    MakeHeader(h, d.total - 1, 1, BackupArray(d, h, entries), crc(entries))
  }

  function PrimaryHeader(d: Disk, h: Header, entries: seq<Data>, crc: seq<Data> -> nat): Header
    requires Fits(d, h, entries)
  {
    MakeHeader(h, 1, d.total - 1, PrimaryArray(d, h), crc(entries))
  }

  /** The table that is written. */
  function NewContent(h: Header, entries: seq<Data>): Content {
    ContentOf(MakeHeader(h, 0, 0, 0, 0), entries)
  }

  function BackupWrites(d: Disk, h: Header, entries: seq<Data>, crc: seq<Data> -> nat): seq<(nat, Sector)>
    requires Fits(d, h, entries)
  {
    SideWrites(entries, BackupHeader(d, h, entries, crc))
  }

  function PrimaryWrites(d: Disk, h: Header, entries: seq<Data>, crc: seq<Data> -> nat): seq<(nat, Sector)>
    requires Fits(d, h, entries)
  {
    SideWrites(entries, PrimaryHeader(d, h, entries, crc))
  }

  /** The media write_pair goes through: backup writes pending on the old disk, then primary writes on the new backup. */
  ghost predicate InProtocol(d: Disk, h: Header, entries: seq<Data>, crc: seq<Data> -> nat, old0: DiskImage, m: Medium<nat, Sector>)
    requires Fits(d, h, entries)
  {
    var mid := Flushed(old0, BackupWrites(d, h, entries, crc));
    || (m.durable == old0 && m.pending <= BackupWrites(d, h, entries, crc))
    || (m.durable == mid && m.pending <= PrimaryWrites(d, h, entries, crc))
    || (m.durable == Flushed(mid, PrimaryWrites(d, h, entries, crc)) && m.pending == [])
  }

  ghost predicate AllInProtocol(d: Disk, h: Header, entries: seq<Data>, crc: seq<Data> -> nat, old0: DiskImage, trace: seq<Medium<nat, Sector>>)
    requires Fits(d, h, entries)
  {
    forall i :: 0 <= i < |trace| ==> InProtocol(d, h, entries, crc, old0, trace[i])
  }

  /** One side: its array, then its header, then a flush. */
  method WriteSide(dev: Device<nat, Sector>, entries: seq<Data>, h: Header) returns (ok: bool)
    requires dev.medium.pending == []
    modifies dev
    ensures dev.failed == (old(dev.failed) || !ok)
    ensures ok ==> dev.medium == Medium(Flushed(old(dev.medium).durable, SideWrites(entries, h)), [])
    ensures |old(dev.trace)| <= |dev.trace| && dev.trace[..|old(dev.trace)|] == old(dev.trace)
    ensures forall i :: |old(dev.trace)| <= i < |dev.trace| ==>
      dev.trace[i] == dev.medium || (dev.trace[i].durable == old(dev.medium).durable && dev.trace[i].pending <= SideWrites(entries, h))
    ensures !ok ==> dev.medium.durable == old(dev.medium).durable && dev.medium.pending <= SideWrites(entries, h)
  {
    ghost var d, t0, w := dev.medium.durable, dev.trace, SideWrites(entries, h);
    for i := 0 to |entries|
      invariant dev.medium == Medium(d, w[..i]) && dev.failed == old(dev.failed)
      invariant |t0| <= |dev.trace| && dev.trace[..|t0|] == t0
      invariant forall k :: |t0| <= k < |dev.trace| ==> dev.trace[k].durable == d && dev.trace[k].pending <= w
    {
      ok := dev.Write(h.arrayLba + i, ArraySector(entries[i]));
      assert w[..i + 1] == w[..i] + [w[i]];
      if !ok { return; }
    }
    ok := dev.Write(h.current, HeaderSector(h));
    assert w[..|entries| + 1] == w[..|entries|] + [w[|entries|]];
    assert w[..|entries| + 1] == w;
    if !ok { return; }
    ok := dev.Flush();
  }

  /** write_pair up to its verification, from a side the reader accepted. A disk under 100 sectors is refused before any write. */
  method WritePair(dev: Device<nat, Sector>, d: Disk, h: Header, entries: seq<Data>, crc: seq<Data> -> nat) returns (ok: bool)
    requires d.sectorSize > 0 && d.total > 0 && StartsFrom(dev.medium.durable, d, crc, h) && |entries| == Sectors(d, h)
    requires dev.medium.pending == [] && dev.trace == [dev.medium]
    modifies dev
    ensures dev.failed == (old(dev.failed) || (!ok && d.total >= 100))
    ensures d.total < 100 ==> !ok && dev.medium == old(dev.medium) && dev.trace == old(dev.trace)
    ensures d.total >= 100 ==> Fits(d, h, entries) && AllInProtocol(d, h, entries, crc, old(dev.medium).durable, dev.trace)
    ensures ok ==> dev.medium == Medium(Flushed(Flushed(old(dev.medium).durable, BackupWrites(d, h, entries, crc)), PrimaryWrites(d, h, entries, crc)), [])
  {
    hide SideWrites, MakeHeader, StartsFrom;
    if d.total < 100 { return false; }
    StartFits(dev.medium.durable, d, crc, h, entries);
    var n := Sectors(d, h);
    var last := d.total - 1;
    var sum := crc(entries);
    ok := WriteSide(dev, entries, MakeHeader(h, last, 1, last - n, sum));
    if !ok { return; }
    ok := WriteSide(dev, entries, MakeHeader(h, 1, last, PrimaryArray(d, h), sum));
  }

  // ---------- what the reader will say of the written headers ----------

  /** The usable area ends below the backup array; nothing in the reader or the writer checks it. */
  predicate BackupSound(d: Disk, h: Header)
    requires d.sectorSize > 0
  {
    h.lastUsable + Sectors(d, h) + 1 < d.total
  }

  /** There is room for the primary array between the header and the usable area. */
  predicate PrimarySound(d: Disk, h: Header)
    requires d.sectorSize > 0
  {
    Sectors(d, h) + 2 <= h.firstUsable || h.lastUsable == 0
  }

  /** The backup header passes the reader's checks exactly when the usable area ends below its array, the primary header exactly when there is room. */
  lemma HeadersAccepted(d: Disk, h: Header, entries: seq<Data>, crc: seq<Data> -> nat)
    requires Fits(d, h, entries)
    ensures var b, p := BackupHeader(d, h, entries, crc), PrimaryHeader(d, h, entries, crc);
      && HeaderSane(d, b, d.total - 1) && (SideGeometryOk(d, b) <==> BackupSound(d, h))
      && HeaderSane(d, p, 1) && (SideGeometryOk(d, p) <==> PrimarySound(d, h))
  {
    hide ArraySectors;
  }

  /** What is written, and where: the table started from with the new entries, arrays ending at the last sector and below the usable area. */
  lemma HeadersPlaced(d: Disk, h: Header, entries: seq<Data>, crc: seq<Data> -> nat)
    requires Fits(d, h, entries)
    ensures h.revision != 0 ==> NewContent(h, entries) == AsTable(h, entries)
    ensures NewContent(h, entries) == AsTable(h.(revision := if h.revision == 0 then 0x1_0000 else h.revision), entries)
    ensures var b := BackupHeader(d, h, entries, crc);
      AsTable(b, entries) == NewContent(h, entries) && b.current == d.total - 1 && b.backup == 1 && b.arrayLba + |entries| == d.total - 1 && b.arrayCrc == crc(entries)
    ensures var p := PrimaryHeader(d, h, entries, crc);
      AsTable(p, entries) == NewContent(h, entries) && p.current == 1 && p.backup == d.total - 1 && p.arrayCrc == crc(entries)
      && p.arrayLba >= 2 && (p.arrayLba + |entries| == h.firstUsable || (p.arrayLba == 2 && h.firstUsable < 2 + |entries|))
  {
    hide ArraySectors;
  }

  // ---------- what survives ----------

  ghost predicate Faithful(crc: seq<Data> -> nat) {
    forall a, b :: crc(a) == crc(b) ==> a == b
  }

  /** A whole side of the given content is on disk. */
  predicate Complete(img: DiskImage, d: Disk, lba: nat, crc: seq<Data> -> nat, c: Content)
    requires d.sectorSize > 0
  {
    var s := ReadSide(img, d, lba, crc, true);
    s.SideValid? && ContentOf(s.h, s.entries) == c
  }

  predicate HasSide(img: DiskImage, d: Disk, lba: nat, crc: seq<Data> -> nat)
    requires d.sectorSize > 0
  {
    ReadSide(img, d, lba, crc, true).SideValid?
  }

  function PrimaryContent(img: DiskImage, d: Disk, crc: seq<Data> -> nat): Content
    requires d.sectorSize > 0 && HasSide(img, d, 1, crc)
  {
    var s := ReadSide(img, d, 1, crc, true);
    ContentOf(s.h, s.entries)
  }

  /** A valid primary whose array does not reach the sectors of the new backup side. */
  predicate PrimaryStandsApart(img: DiskImage, d: Disk, h: Header, entries: seq<Data>, crc: seq<Data> -> nat)
    requires Fits(d, h, entries)
  {
    && HasSide(img, d, 1, crc)
    && var p := ReadSide(img, d, 1, crc, true).h;
       p.arrayLba + Sectors(d, p) <= BackupArray(d, h, entries)
  }

  /** Sectors outside the pending writes keep their durable content. */
  lemma Unwritten(m: Medium<nat, Sector>, img: DiskImage, k: nat)
    requires CrashImage(m, img) && k in m.durable && forall i :: 0 <= i < |m.pending| ==> m.pending[i].0 != k
    ensures k in img && img[k] == m.durable[k]
  {
    assert Survives(m, k, img[k]);
    assert !Written(m, k);
  }

  predicate Same(a: DiskImage, b: DiskImage, k: nat) {
    k in a && k in b && a[k] == b[k]
  }

  /** Reading a side depends on its header and array sectors only. */
  lemma SideDependsOn(a: DiskImage, b: DiskImage, d: Disk, lba: nat, crc: seq<Data> -> nat, torn: bool)
    requires d.sectorSize > 0 && HasSide(a, d, lba, crc)
    requires lba in b && b[lba] == a[lba]
    requires var h := ReadSide(a, d, lba, crc, true).h;
      forall k :: h.arrayLba <= k < h.arrayLba + Sectors(d, h) ==> Same(a, b, k)
    ensures ReadSide(b, d, lba, crc, torn) == ReadSide(a, d, lba, crc, true)
  {
    var h := a[lba].value.h;
    var n := ArraySectors(h.count, h.entrySize, d.sectorSize);
    forall k | h.arrayLba <= k < h.arrayLba + n ensures ArrayCell(a, k) && ArrayCell(b, k) && b[k] == a[k] {
      assert Same(a, b, k) && ArrayCell(a, k);
    }
    assert ArrayAt(a, h.arrayLba, n) == ArrayAt(b, h.arrayLba, n);
  }

  lemma WritesAbove(d: Disk, h: Header, entries: seq<Data>, crc: seq<Data> -> nat, i: nat)
    requires Fits(d, h, entries) && i < |BackupWrites(d, h, entries, crc)|
    ensures BackupArray(d, h, entries) <= BackupWrites(d, h, entries, crc)[i].0 < d.total
  {
  }

  /** Primary writes stay below the last sector, and below the backup array when the two regions are apart. */
  lemma WritesBelow(d: Disk, h: Header, entries: seq<Data>, crc: seq<Data> -> nat, i: nat)
    requires Fits(d, h, entries) && i < |PrimaryWrites(d, h, entries, crc)|
    ensures 1 <= PrimaryWrites(d, h, entries, crc)[i].0 < d.total
    ensures PrimaryWrites(d, h, entries, crc)[i].0 < if PrimaryArray(d, h) == 2 then Sectors(d, h) + 2 else h.firstUsable
    ensures i == |entries| <==> PrimaryWrites(d, h, entries, crc)[i].0 == 1
  {
  }

  /** With a primary that stands apart, the new primary does not touch the last sector, nor the new backup if that is sound. */
  lemma RegionsApart(d: Disk, h: Header, entries: seq<Data>, crc: seq<Data> -> nat, old0: DiskImage)
    requires Fits(d, h, entries) && StartsFrom(old0, d, crc, h) && PrimaryStandsApart(old0, d, h, entries, crc)
    ensures 1 < BackupArray(d, h, entries)
    ensures forall i :: 0 <= i < |PrimaryWrites(d, h, entries, crc)| ==> PrimaryWrites(d, h, entries, crc)[i].0 < d.total - 1
    ensures BackupSound(d, h) ==>
      forall i :: 0 <= i < |PrimaryWrites(d, h, entries, crc)| ==> PrimaryWrites(d, h, entries, crc)[i].0 < BackupArray(d, h, entries)
  {
    hide ArraySectors, PrimaryWrites;
    var n := Sectors(d, h);
    SideIgnoresTorn(old0, d, 1, crc);
    assert h == ReadSide(old0, d, 1, crc, true).h && HeaderSane(d, h, 1) && SideGeometryOk(d, h);
    assert ArrayIntact(old0, h.arrayLba, n);
    HeaderOutside(old0, h.arrayLba, n, 1);
    forall i | 0 <= i < |PrimaryWrites(d, h, entries, crc)|
      ensures PrimaryWrites(d, h, entries, crc)[i].0 < d.total - 1
      ensures BackupSound(d, h) ==> PrimaryWrites(d, h, entries, crc)[i].0 < BackupArray(d, h, entries)
    {
      WritesBelow(d, h, entries, crc, i);
    }
  }

  /** Whether a side is valid does not depend on how a torn header reads. */
  lemma SideIgnoresTorn(img: DiskImage, d: Disk, lba: nat, crc: seq<Data> -> nat)
    requires d.sectorSize > 0
    ensures ReadSide(img, d, lba, crc, false).SideValid? <==> ReadSide(img, d, lba, crc, true).SideValid?
    ensures ReadSide(img, d, lba, crc, true).SideValid? ==> ReadSide(img, d, lba, crc, false) == ReadSide(img, d, lba, crc, true)
  {
  }

  /** While the backup is being written, the old primary is untouched. */
  lemma OldPrimarySurvives(d: Disk, h: Header, entries: seq<Data>, crc: seq<Data> -> nat, m: Medium<nat, Sector>, img: DiskImage, torn: bool)
    requires Fits(d, h, entries) && PrimaryStandsApart(m.durable, d, h, entries, crc) && 1 < BackupArray(d, h, entries)
    requires m.pending <= BackupWrites(d, h, entries, crc) && CrashImage(m, img)
    ensures ReadSide(img, d, 1, crc, torn) == ReadSide(m.durable, d, 1, crc, true)
  {
    hide BackupWrites, Fits;
    var p := ReadSide(m.durable, d, 1, crc, true).h;
    var n := Sectors(d, p);
    forall i | 0 <= i < |m.pending| ensures m.pending[i].0 >= BackupArray(d, h, entries) {
      WritesAbove(d, h, entries, crc, i);
    }
    Unwritten(m, img, 1);
    forall k | p.arrayLba <= k < p.arrayLba + n ensures Same(m.durable, img, k) {
      assert ArrayCell(m.durable, k);
      Unwritten(m, img, k);
    }
    SideDependsOn(m.durable, img, d, 1, crc, torn);
  }

  predicate HoldsData(img: DiskImage, k: nat, data: Data) {
    k in img && img[k] == Intact(ArraySector(data))
  }

  predicate HoldsArray(img: DiskImage, lba: nat, entries: seq<Data>) {
    forall i :: 0 <= i < |entries| ==> HoldsData(img, lba + i, entries[i])
  }

  /** The sectors of a side once flushed. */
  lemma SideOnDisk(img: DiskImage, entries: seq<Data>, h: Header)
    requires h.current < h.arrayLba || h.arrayLba + |entries| <= h.current
    ensures var r := Flushed(img, SideWrites(entries, h));
      h.current in r && r[h.current] == Intact(HeaderSector(h)) && HoldsArray(r, h.arrayLba, entries)
  {
    var w := SideWrites(entries, h);
    FlushedAt(img, w, |entries|);
    forall i | 0 <= i < |entries| ensures HoldsData(Flushed(img, w), h.arrayLba + i, entries[i]) {
      assert w[i] == (h.arrayLba + i, ArraySector(entries[i]));
      FlushedAt(img, w, i);
    }
  }

  /** A side whose sectors hold a sane header and the array it describes reads back. */
  lemma SideReadsBack(img: DiskImage, d: Disk, h: Header, entries: seq<Data>, crc: seq<Data> -> nat, torn: bool)
    requires d.sectorSize > 0 && HeaderSane(d, h, h.current) && SideGeometryOk(d, h) && h.current < d.total
    requires h.current in img && img[h.current] == Intact(HeaderSector(h)) && HoldsArray(img, h.arrayLba, entries)
    requires |entries| == ArraySectors(h.count, h.entrySize, d.sectorSize) && crc(entries) == h.arrayCrc
    ensures ReadSide(img, d, h.current, crc, torn) == SideValid(h, entries)
  {
    hide ArraySectors, HeaderSane, SideGeometryOk;
    var n := |entries|;
    forall k | h.arrayLba <= k < h.arrayLba + n ensures ArrayCell(img, k) && img[k].value.data == entries[k - h.arrayLba] {
      assert HoldsData(img, h.arrayLba + (k - h.arrayLba), entries[k - h.arrayLba]);
    }
    assert ArrayAt(img, h.arrayLba, n) == entries;
  }

  /** An intact header that fails the geometry check is an error, whatever the array holds. */
  lemma UnsoundSideFails(img: DiskImage, d: Disk, h: Header, crc: seq<Data> -> nat, torn: bool)
    requires d.sectorSize > 0 && !SideGeometryOk(d, h) && h.current in img && img[h.current] == Intact(HeaderSector(h))
    ensures ReadSide(img, d, h.current, crc, torn) == SideError
  {
    hide SideGeometryOk;
  }

  /** What the written backup reads as once its sectors are in place. */
  lemma BackupReads(img: DiskImage, d: Disk, h: Header, entries: seq<Data>, crc: seq<Data> -> nat, torn: bool)
    requires Fits(d, h, entries)
    requires var b := BackupHeader(d, h, entries, crc);
      b.current in img && img[b.current] == Intact(HeaderSector(b)) && (BackupSound(d, h) ==> HoldsArray(img, b.arrayLba, entries))
    ensures ReadSide(img, d, d.total - 1, crc, torn) == if BackupSound(d, h) then SideValid(BackupHeader(d, h, entries, crc), entries) else SideError
    ensures ContentOf(BackupHeader(d, h, entries, crc), entries) == NewContent(h, entries)
  {
    hide ReadSide, HeaderSane, SideGeometryOk, ArraySectors, HoldsArray;
    var b := BackupHeader(d, h, entries, crc);
    HeadersAccepted(d, h, entries, crc);
    if BackupSound(d, h) { SideReadsBack(img, d, b, entries, crc, torn); } else { UnsoundSideFails(img, d, b, crc, torn); }
  }

  lemma PrimaryReads(img: DiskImage, d: Disk, h: Header, entries: seq<Data>, crc: seq<Data> -> nat, torn: bool)
    requires Fits(d, h, entries)
    requires var p := PrimaryHeader(d, h, entries, crc);
      p.current in img && img[p.current] == Intact(HeaderSector(p)) && HoldsArray(img, p.arrayLba, entries)
    ensures ReadSide(img, d, 1, crc, torn) == if PrimarySound(d, h) then SideValid(PrimaryHeader(d, h, entries, crc), entries) else SideError
    ensures ContentOf(PrimaryHeader(d, h, entries, crc), entries) == NewContent(h, entries)
  {
    hide ReadSide, HeaderSane, SideGeometryOk, ArraySectors, HoldsArray;
    var p := PrimaryHeader(d, h, entries, crc);
    HeadersAccepted(d, h, entries, crc);
    if PrimarySound(d, h) { SideReadsBack(img, d, p, entries, crc, torn); } else { UnsoundSideFails(img, d, p, crc, torn); }
  }

  /** While the primary is being written, the new backup is complete if it is sound, and refused if it is not. */
  lemma NewBackupSurvives(d: Disk, h: Header, entries: seq<Data>, crc: seq<Data> -> nat, old0: DiskImage, m: Medium<nat, Sector>, img: DiskImage, torn: bool)
    requires Fits(d, h, entries) && StartsFrom(old0, d, crc, h) && PrimaryStandsApart(old0, d, h, entries, crc)
    requires m.durable == Flushed(old0, BackupWrites(d, h, entries, crc)) && m.pending <= PrimaryWrites(d, h, entries, crc) && CrashImage(m, img)
    ensures ReadSide(img, d, d.total - 1, crc, torn) == if BackupSound(d, h) then SideValid(BackupHeader(d, h, entries, crc), entries) else SideError
    ensures ContentOf(BackupHeader(d, h, entries, crc), entries) == NewContent(h, entries)
  {
    hide PrimaryWrites, SideWrites, ReadSide, StartsFrom, PrimaryStandsApart;
    var b := BackupHeader(d, h, entries, crc);
    SideOnDisk(old0, entries, b);
    RegionsApart(d, h, entries, crc, old0);
    Unwritten(m, img, b.current);
    if BackupSound(d, h) {
      forall i | 0 <= i < |entries| ensures HoldsData(img, b.arrayLba + i, entries[i]) {
        assert HoldsData(m.durable, b.arrayLba + i, entries[i]);
        Unwritten(m, img, b.arrayLba + i);
      }
    }
    BackupReads(img, d, h, entries, crc, torn);
  }

  /** Both sides once everything is flushed. */
  lemma FinishedSides(d: Disk, h: Header, entries: seq<Data>, crc: seq<Data> -> nat, old0: DiskImage, torn: bool)
    requires Fits(d, h, entries)
    requires forall i :: 0 <= i < |PrimaryWrites(d, h, entries, crc)| ==> PrimaryWrites(d, h, entries, crc)[i].0 < d.total - 1
    requires BackupSound(d, h) ==>
      forall i :: 0 <= i < |PrimaryWrites(d, h, entries, crc)| ==> PrimaryWrites(d, h, entries, crc)[i].0 < BackupArray(d, h, entries)
    ensures var img := Flushed(Flushed(old0, BackupWrites(d, h, entries, crc)), PrimaryWrites(d, h, entries, crc));
      && ReadSide(img, d, 1, crc, torn) == (if PrimarySound(d, h) then SideValid(PrimaryHeader(d, h, entries, crc), entries) else SideError)
      && ReadSide(img, d, d.total - 1, crc, torn) == (if BackupSound(d, h) then SideValid(BackupHeader(d, h, entries, crc), entries) else SideError)
      && ContentOf(PrimaryHeader(d, h, entries, crc), entries) == NewContent(h, entries) == ContentOf(BackupHeader(d, h, entries, crc), entries)
  {
    hide SideWrites, ReadSide, HoldsArray, ArraySectors;
    var mid := Flushed(old0, BackupWrites(d, h, entries, crc));
    var img := Flushed(mid, PrimaryWrites(d, h, entries, crc));
    SideOnDisk(old0, entries, BackupHeader(d, h, entries, crc));
    SideOnDisk(mid, entries, PrimaryHeader(d, h, entries, crc));
    BackupKept(d, h, entries, crc, mid);
    PrimaryReads(img, d, h, entries, crc, torn);
    BackupReads(img, d, h, entries, crc, torn);
  }

  /** Flushing the primary leaves the backup's header alone, and its array if that is sound. */
  lemma BackupKept(d: Disk, h: Header, entries: seq<Data>, crc: seq<Data> -> nat, mid: DiskImage)
    requires Fits(d, h, entries)
    requires var b := BackupHeader(d, h, entries, crc); b.current in mid && HoldsArray(mid, b.arrayLba, entries)
    requires forall i :: 0 <= i < |PrimaryWrites(d, h, entries, crc)| ==> PrimaryWrites(d, h, entries, crc)[i].0 < d.total - 1
    requires BackupSound(d, h) ==>
      forall i :: 0 <= i < |PrimaryWrites(d, h, entries, crc)| ==> PrimaryWrites(d, h, entries, crc)[i].0 < BackupArray(d, h, entries)
    ensures var b := BackupHeader(d, h, entries, crc); var img := Flushed(mid, PrimaryWrites(d, h, entries, crc));
      b.current in img && img[b.current] == mid[b.current] && (BackupSound(d, h) ==> HoldsArray(img, b.arrayLba, entries))
  {
    hide PrimaryWrites;
    var b := BackupHeader(d, h, entries, crc);
    var w := PrimaryWrites(d, h, entries, crc);
    var r := Flushed(mid, w);
    FlushedOther(mid, w, b.current);
    if BackupSound(d, h) {
      var first := BackupArray(d, h, entries);
      forall i | 0 <= i < |entries| ensures HoldsData(r, b.arrayLba + i, entries[i]) {
        var k: nat := b.arrayLba + i;
        assert HoldsData(mid, k, entries[i]);
        assert k >= first;
        FlushedOther(mid, w, k);
        assert k in r && r[k] == mid[k];
      }
    }
  }

  /** At least one complete old or new side at every crash point. */
  lemma CrashLeavesSide(d: Disk, h: Header, entries: seq<Data>, crc: seq<Data> -> nat, old0: DiskImage, m: Medium<nat, Sector>, img: DiskImage)
    requires Fits(d, h, entries) && StartsFrom(old0, d, crc, h)
    requires PrimaryStandsApart(old0, d, h, entries, crc) && BackupSound(d, h)
    requires InProtocol(d, h, entries, crc, old0, m) && CrashImage(m, img)
    ensures Complete(img, d, 1, crc, PrimaryContent(old0, d, crc)) || Complete(img, d, d.total - 1, crc, NewContent(h, entries))
  {
    hide BackupWrites, PrimaryWrites, ReadSide, Fits, StartsFrom;
    RegionsApart(d, h, entries, crc, old0);
    if m.durable == old0 && m.pending <= BackupWrites(d, h, entries, crc) {
      OldPrimarySurvives(d, h, entries, crc, m, img, true);
    } else if m.durable == Flushed(old0, BackupWrites(d, h, entries, crc)) && m.pending <= PrimaryWrites(d, h, entries, crc) {
      NewBackupSurvives(d, h, entries, crc, old0, m, img, true);
    } else {
      QuiescentCrash(m.durable, img);
      FinishedSides(d, h, entries, crc, old0, true);
    }
  }

  /** A primary read during the second phase is the old one or the new one, whole. */
  lemma PrimaryDuringRewrite(d: Disk, h: Header, entries: seq<Data>, crc: seq<Data> -> nat, old0: DiskImage, m: Medium<nat, Sector>, img: DiskImage, torn: bool)
    requires Fits(d, h, entries) && PrimaryStandsApart(old0, d, h, entries, crc) && Faithful(crc) && 1 < BackupArray(d, h, entries)
    requires m.durable == Flushed(old0, BackupWrites(d, h, entries, crc)) && m.pending <= PrimaryWrites(d, h, entries, crc) && CrashImage(m, img)
    ensures var s := ReadSide(img, d, 1, crc, torn);
      s.SideValid? ==> ContentOf(s.h, s.entries) in {PrimaryContent(old0, d, crc), NewContent(h, entries)}
  {
    hide BackupWrites, Fits;
    var s := ReadSide(img, d, 1, crc, torn);
    if s.SideValid? {
      forall i | 0 <= i < |BackupWrites(d, h, entries, crc)| ensures BackupWrites(d, h, entries, crc)[i].0 != 1 {
        WritesAbove(d, h, entries, crc, i);
      }
      FlushedOther(old0, BackupWrites(d, h, entries, crc), 1);
      assert Survives(m, 1, img[1]);
      assert crc(s.entries) == s.h.arrayCrc;
      if img[1] == old0[1] {
        assert s.entries == ReadSide(old0, d, 1, crc, true).entries;
      } else {
        var i :| 0 <= i < |m.pending| && m.pending[i].0 == 1 && img[1] == Intact(m.pending[i].1);
        HeaderWrite(d, h, entries, crc, i);
        assert s.h == PrimaryHeader(d, h, entries, crc);
        assert s.entries == entries;
      }
    }
  }

  lemma HeaderWrite(d: Disk, h: Header, entries: seq<Data>, crc: seq<Data> -> nat, i: nat)
    requires Fits(d, h, entries) && i < |PrimaryWrites(d, h, entries, crc)| && PrimaryWrites(d, h, entries, crc)[i].0 == 1
    ensures PrimaryWrites(d, h, entries, crc)[i].1 == HeaderSector(PrimaryHeader(d, h, entries, crc))
    ensures PrimaryHeader(d, h, entries, crc).arrayCrc == crc(entries)
    ensures ContentOf(PrimaryHeader(d, h, entries, crc), entries) == NewContent(h, entries)
  {
    WritesBelow(d, h, entries, crc, i);
  }

  /** Between the two flushes the disk has the old table in front and the new one at the end. */
  lemma BetweenFlushes(d: Disk, h: Header, entries: seq<Data>, crc: seq<Data> -> nat, old0: DiskImage, torn: bool)
    requires Fits(d, h, entries) && StartsFrom(old0, d, crc, h) && PrimaryStandsApart(old0, d, h, entries, crc)
    ensures var mid := Flushed(old0, BackupWrites(d, h, entries, crc));
      && ReadSide(mid, d, 1, crc, torn) == ReadSide(old0, d, 1, crc, true)
      && AsTable(BackupHeader(d, h, entries, crc), entries) == NewContent(h, entries)
      && ReadSide(mid, d, d.total - 1, crc, torn) == if BackupSound(d, h) then SideValid(BackupHeader(d, h, entries, crc), entries) else SideError
  {
    hide BackupWrites, PrimaryWrites, Fits, StartsFrom, BackupHeader, ReadSide, PrimaryStandsApart;
    var mid := Flushed(old0, BackupWrites(d, h, entries, crc));
    QuiescentIsCrash(mid);
    NewBackupSurvives(d, h, entries, crc, old0, Medium(mid, []), mid, torn);
    RegionsApart(d, h, entries, crc, old0);
    PrimaryUntouched(d, h, entries, crc, old0, torn);
  }

  lemma PrimaryUntouched(d: Disk, h: Header, entries: seq<Data>, crc: seq<Data> -> nat, old0: DiskImage, torn: bool)
    requires Fits(d, h, entries) && PrimaryStandsApart(old0, d, h, entries, crc) && 1 < BackupArray(d, h, entries)
    ensures ReadSide(Flushed(old0, BackupWrites(d, h, entries, crc)), d, 1, crc, torn) == ReadSide(old0, d, 1, crc, true)
  {
    hide BackupWrites, ReadSide, ArraySectors;
    var w := BackupWrites(d, h, entries, crc);
    forall i | 0 <= i < |w| ensures w[i].0 >= BackupArray(d, h, entries) { WritesAbove(d, h, entries, crc, i); }
    WritesBeyond(old0, w, d, crc, BackupArray(d, h, entries), torn);
  }

  /** Writes beyond a side leave it as it was. */
  lemma WritesBeyond(img: DiskImage, w: seq<(nat, Sector)>, d: Disk, crc: seq<Data> -> nat, from: nat, torn: bool)
    requires d.sectorSize > 0 && HasSide(img, d, 1, crc) && 1 < from && forall i :: 0 <= i < |w| ==> w[i].0 >= from
    requires var h := ReadSide(img, d, 1, crc, true).h; h.arrayLba + Sectors(d, h) <= from
    ensures ReadSide(Flushed(img, w), d, 1, crc, torn) == ReadSide(img, d, 1, crc, true)
  {
    hide ReadSide, ArraySectors;
    SideCells(img, d, 1, crc);
    var h := ReadSide(img, d, 1, crc, true).h;
    FlushedOther(img, w, 1);
    forall k: nat | h.arrayLba <= k < h.arrayLba + Sectors(d, h) ensures Same(img, Flushed(img, w), k) {
      assert ArrayCell(img, k);
      FlushedOther(img, w, k);
    }
    SideDependsOn(img, Flushed(img, w), d, 1, crc, torn);
  }

  lemma SideCells(img: DiskImage, d: Disk, lba: nat, crc: seq<Data> -> nat)
    requires d.sectorSize > 0 && HasSide(img, d, lba, crc)
    ensures lba in img
    ensures var h := ReadSide(img, d, lba, crc, true).h; ArrayIntact(img, h.arrayLba, Sectors(d, h))
  {
    hide ArraySectors;
  }

  /** A power cut right there, with a changed table, is reported as two tables that disagree. */
  lemma SplitBrainReported(d: Disk, h: Header, entries: seq<Data>, rd: Reader, old0: DiskImage)
    requires Fits(d, h, entries) && StartsFrom(old0, d, rd.crc, h) && PrimaryStandsApart(old0, d, h, entries, rd.crc)
    requires PrimaryContent(old0, d, rd.crc) != NewContent(h, entries)
    ensures ReadTable(Flushed(old0, BackupWrites(d, h, entries, rd.crc)), d, rd) == NoTable
  {
    hide ReadSide, BackupWrites, Fits, StartsFrom, BackupHeader, BackupSound, ReadTable;
    BetweenFlushes(d, h, entries, rd.crc, old0, rd.tornPrimary);
    BetweenFlushes(d, h, entries, rd.crc, old0, rd.tornBackup);
    EnoughSectors(d, h, entries);
    TableExactly(Flushed(old0, BackupWrites(d, h, entries, rd.crc)), d, rd);
  }

  lemma EnoughSectors(d: Disk, h: Header, entries: seq<Data>)
    requires Fits(d, h, entries)
    ensures d.total >= 2 && d.sectorSize > 0
  {
  }

  /** A power cut that tears the primary header falls back to the new table, if the torn sector reads as no header at all. */
  lemma TornPrimaryFallsBack(d: Disk, h: Header, entries: seq<Data>, rd: Reader, old0: DiskImage, m: Medium<nat, Sector>, img: DiskImage)
    requires Fits(d, h, entries) && StartsFrom(old0, d, rd.crc, h) && PrimaryStandsApart(old0, d, h, entries, rd.crc) && BackupSound(d, h)
    requires m.durable == Flushed(old0, BackupWrites(d, h, entries, rd.crc)) && m.pending <= PrimaryWrites(d, h, entries, rd.crc) && CrashImage(m, img)
    requires 1 in img && img[1].Torn? && !rd.tornPrimary && rd.entriesOk(BackupHeader(d, h, entries, rd.crc), entries)
    ensures ReadTable(img, d, rd) == Table(NewContent(h, entries))
  {
    hide BackupWrites, PrimaryWrites, StartsFrom, BackupHeader, ReadTable, PrimaryStandsApart;
    NewBackupSurvives(d, h, entries, rd.crc, old0, m, img, rd.tornBackup);
    assert ReadSide(img, d, 1, rd.crc, false) == SideInvalid;
    hide ReadSide;
    TableExactly(img, d, rd);
  }

  /** After a crash anywhere, reading yields exactly the old table, the new table or an error, sound or not. */
  lemma NeverMixed(d: Disk, h: Header, entries: seq<Data>, rd: Reader, old0: DiskImage, m: Medium<nat, Sector>, img: DiskImage)
    requires Fits(d, h, entries) && StartsFrom(old0, d, rd.crc, h) && PrimaryStandsApart(old0, d, h, entries, rd.crc) && Faithful(rd.crc)
    requires InProtocol(d, h, entries, rd.crc, old0, m) && CrashImage(m, img)
    ensures ReadTable(img, d, rd) in {NoTable, Table(PrimaryContent(old0, d, rd.crc)), Table(NewContent(h, entries))}
  {
    hide BackupWrites, PrimaryWrites, ReadSide, Fits, Faithful, StartsFrom;
    RegionsApart(d, h, entries, rd.crc, old0);
    if m.durable == old0 && m.pending <= BackupWrites(d, h, entries, rd.crc) {
      OldPrimarySurvives(d, h, entries, rd.crc, m, img, rd.tornPrimary);
    } else if m.durable == Flushed(old0, BackupWrites(d, h, entries, rd.crc)) && m.pending <= PrimaryWrites(d, h, entries, rd.crc) {
      NewBackupSurvives(d, h, entries, rd.crc, old0, m, img, rd.tornBackup);
      PrimaryDuringRewrite(d, h, entries, rd.crc, old0, m, img, rd.tornPrimary);
    } else {
      QuiescentCrash(m.durable, img);
      FinishedSides(d, h, entries, rd.crc, old0, rd.tornPrimary);
      FinishedSides(d, h, entries, rd.crc, old0, rd.tornBackup);
    }
  }

  /**
   After a completed write with room for the primary array, the new table is read exactly when the
   usable area ends below the backup array; without that room nothing is read at all.
   */
  lemma CompletedReads(d: Disk, h: Header, entries: seq<Data>, rd: Reader, old0: DiskImage)
    requires Fits(d, h, entries) && forall g :: rd.entriesOk(g, entries)
    ensures var img := Flushed(Flushed(old0, BackupWrites(d, h, entries, rd.crc)), PrimaryWrites(d, h, entries, rd.crc));
      && (Sectors(d, h) + 2 <= h.firstUsable ==> ReadTable(img, d, rd) == if BackupSound(d, h) then Table(NewContent(h, entries)) else NoTable)
      && (!PrimarySound(d, h) ==> ReadTable(img, d, rd) == NoTable)
  {
    hide ReadSide, BackupWrites, SideWrites;
    var mid := Flushed(old0, BackupWrites(d, h, entries, rd.crc));
    if Sectors(d, h) + 2 <= h.firstUsable {
      forall i | 0 <= i < |PrimaryWrites(d, h, entries, rd.crc)|
        ensures PrimaryWrites(d, h, entries, rd.crc)[i].0 < d.total - 1
        ensures BackupSound(d, h) ==> PrimaryWrites(d, h, entries, rd.crc)[i].0 < BackupArray(d, h, entries)
      {
        WritesBelow(d, h, entries, rd.crc, i);
      }
      FinishedSides(d, h, entries, rd.crc, old0, rd.tornPrimary);
      FinishedSides(d, h, entries, rd.crc, old0, rd.tornBackup);
    } else if !PrimarySound(d, h) {
      SideOnDisk(mid, entries, PrimaryHeader(d, h, entries, rd.crc));
      PrimaryReads(Flushed(mid, PrimaryWrites(d, h, entries, rd.crc)), d, h, entries, rd.crc, rd.tornPrimary);
    }
  }

  // ---------- exactly when it is safe ----------

  /** Every write torn, everything else as it was. */
  ghost function AllTorn(m: Medium<nat, Sector>): DiskImage {
    map k | k in m.durable :: if Written(m, k) then Torn else m.durable[k]
  }

  lemma AllTornIsCrash(m: Medium<nat, Sector>)
    ensures CrashImage(m, AllTorn(m))
  {
  }

  ghost predicate SafeThroughout(d: Disk, h: Header, entries: seq<Data>, crc: seq<Data> -> nat, old0: DiskImage)
    requires Fits(d, h, entries)
  {
    forall m, img :: InProtocol(d, h, entries, crc, old0, m) && CrashImage(m, img) ==> HasSide(img, d, 1, crc) || HasSide(img, d, d.total - 1, crc)
  }

  lemma CompleteHasSide(img: DiskImage, d: Disk, crc: seq<Data> -> nat, a: Content, b: Content)
    requires d.sectorSize > 0 && d.total > 0 && (Complete(img, d, 1, crc, a) || Complete(img, d, d.total - 1, crc, b))
    ensures HasSide(img, d, 1, crc) || HasSide(img, d, d.total - 1, crc)
  {
  }

  lemma TornHeaderUnread(img: DiskImage, d: Disk, lba: nat, crc: seq<Data> -> nat)
    requires d.sectorSize > 0 && lba in img && img[lba] == Torn
    ensures !HasSide(img, d, lba, crc)
  {
  }

  /** Tearing the whole new backup side destroys both sides unless a primary stands apart. */
  lemma TearingLosesBoth(d: Disk, h: Header, entries: seq<Data>, crc: seq<Data> -> nat, old0: DiskImage)
    requires Fits(d, h, entries) && !PrimaryStandsApart(old0, d, h, entries, crc) && (forall k :: 0 <= k < d.total ==> k in old0)
    ensures var m := Medium(old0, BackupWrites(d, h, entries, crc));
      && CrashImage(m, AllTorn(m)) && InProtocol(d, h, entries, crc, old0, m)
      && !HasSide(AllTorn(m), d, 1, crc) && !HasSide(AllTorn(m), d, d.total - 1, crc)
  {
    hide ReadSide, BackupWrites, HasSide;
    var m := Medium(old0, BackupWrites(d, h, entries, crc));
    var img := AllTorn(m);
    AllTornIsCrash(m);
    BackupSectorWritten(d, h, entries, crc, old0, d.total - 1);
    TornHeaderUnread(img, d, d.total - 1, crc);
    if 1 < BackupArray(d, h, entries) {
      forall i | 0 <= i < |m.pending| ensures m.pending[i].0 > 1 { WritesAbove(d, h, entries, crc, i); }
      assert !Written(m, 1) && img[1] == old0[1];
      if HasSide(img, d, 1, crc) { TornArrayUnread(d, h, entries, crc, old0); }
    } else {
      BackupSectorWritten(d, h, entries, crc, old0, 1);
      TornHeaderUnread(img, d, 1, crc);
    }
  }

  /** If the primary still reads with every backup sector torn, its array lies below them and it read before. */
  lemma TornArrayUnread(d: Disk, h: Header, entries: seq<Data>, crc: seq<Data> -> nat, old0: DiskImage)
    requires Fits(d, h, entries) && (forall k :: 0 <= k < d.total ==> k in old0)
    requires var img := AllTorn(Medium(old0, BackupWrites(d, h, entries, crc))); HasSide(img, d, 1, crc) && img[1] == old0[1]
    ensures PrimaryStandsApart(old0, d, h, entries, crc)
  {
    hide BackupWrites, Fits;
    var m := Medium(old0, BackupWrites(d, h, entries, crc));
    var img := AllTorn(m);
    var p := ReadSide(img, d, 1, crc, true).h;
    var n := Sectors(d, p);
    forall k | p.arrayLba <= k < p.arrayLba + n ensures !Written(m, k) && Same(img, old0, k) && k < d.total {
      assert ArrayCell(img, k);
    }
    SideDependsOn(img, old0, d, 1, crc, true);
    var first := BackupArray(d, h, entries);
    ArrayNotEmpty(d, p);
    var k := if p.arrayLba > first then p.arrayLba else first;
    BackupBelow(d, h, entries);
    if first <= k < d.total { BackupSectorWritten(d, h, entries, crc, old0, k); }
  }

  lemma BackupBelow(d: Disk, h: Header, entries: seq<Data>)
    requires Fits(d, h, entries)
    ensures BackupArray(d, h, entries) < d.total
  {
  }

  lemma BackupSectorWritten(d: Disk, h: Header, entries: seq<Data>, crc: seq<Data> -> nat, old0: DiskImage, k: nat)
    requires Fits(d, h, entries) && BackupArray(d, h, entries) <= k < d.total
    ensures Written(Medium(old0, BackupWrites(d, h, entries, crc)), k)
  {
    var w := BackupWrites(d, h, entries, crc);
    assert w[k - BackupArray(d, h, entries)].0 == k;
  }

  /** With an unsound backup in place, tearing the primary header leaves no side. */
  lemma UnsoundLosesBoth(d: Disk, h: Header, entries: seq<Data>, crc: seq<Data> -> nat, old0: DiskImage)
    requires Fits(d, h, entries) && StartsFrom(old0, d, crc, h) && PrimaryStandsApart(old0, d, h, entries, crc) && !BackupSound(d, h)
    requires forall k :: 0 <= k < d.total ==> k in old0
    ensures var m := Medium(Flushed(old0, BackupWrites(d, h, entries, crc)), PrimaryWrites(d, h, entries, crc));
      && CrashImage(m, AllTorn(m)) && InProtocol(d, h, entries, crc, old0, m)
      && !HasSide(AllTorn(m), d, 1, crc) && !HasSide(AllTorn(m), d, d.total - 1, crc)
  {
    hide ReadSide, BackupWrites, StartsFrom, PrimaryStandsApart;
    var mid := Flushed(old0, BackupWrites(d, h, entries, crc));
    var m := Medium(mid, PrimaryWrites(d, h, entries, crc));
    var img := AllTorn(m);
    AllTornIsCrash(m);
    NewBackupSurvives(d, h, entries, crc, old0, m, img, true);
    RegionsApart(d, h, entries, crc, old0);
    forall i | 0 <= i < |BackupWrites(d, h, entries, crc)| ensures BackupWrites(d, h, entries, crc)[i].0 != 1 {
      WritesAbove(d, h, entries, crc, i);
    }
    FlushedOther(old0, BackupWrites(d, h, entries, crc), 1);
    assert m.pending[|entries|].0 == 1;
    assert Written(m, 1);
    TornHeaderUnread(img, d, 1, crc);
  }

  /**
   write_pair keeps a complete side at every crash point exactly when it starts from a valid primary
   whose array does not reach the backup sectors, and the usable area ends below the backup array.
   In particular repairing a lost primary is not safe.
   */
  lemma SafeExactlyWhen(d: Disk, h: Header, entries: seq<Data>, crc: seq<Data> -> nat, old0: DiskImage)
    requires d.sectorSize > 0 && d.total >= 100 && StartsFrom(old0, d, crc, h) && |entries| == Sectors(d, h)
    requires forall k :: 0 <= k < d.total ==> k in old0
    ensures Fits(d, h, entries)
    ensures SafeThroughout(d, h, entries, crc, old0) <==>
      PrimaryStandsApart(old0, d, h, entries, crc) && h.lastUsable < d.total - 1 - Sectors(d, h)
  {
    hide BackupWrites, PrimaryWrites, ReadSide, InProtocol, StartsFrom;
    StartFits(old0, d, crc, h, entries);
    if !PrimaryStandsApart(old0, d, h, entries, crc) {
      TearingLosesBoth(d, h, entries, crc, old0);
    } else if !BackupSound(d, h) {
      UnsoundLosesBoth(d, h, entries, crc, old0);
    } else {
      forall m, img | InProtocol(d, h, entries, crc, old0, m) && CrashImage(m, img)
        ensures HasSide(img, d, 1, crc) || HasSide(img, d, d.total - 1, crc)
      {
        CrashLeavesSide(d, h, entries, crc, old0, m, img);
        CompleteHasSide(img, d, crc, PrimaryContent(old0, d, crc), NewContent(h, entries));
      }
    }
  }

  // ---------- a table the reader accepts and the writer loses ----------

  const ODD_DISK := Disk(1000, 512)
  const ODD_HEADER := Header(0x1_0000, 92, 1, 999, 34, 980, 7, 2, 128, 128, 0)

  /** 1000 sectors, an array at 2 to 33, usable sectors 34 to 980: valid, standing apart, and lost by a crash. */
  lemma OddTableLost(entries: seq<Data>, rest: DiskImage)
    requires |entries| == 32 && forall k :: 0 <= k < 1000 ==> k in rest
    ensures var crc := (a: seq<Data>) => 0;
      var h := ODD_HEADER;
      var old0 := Flushed(rest, SideWrites(entries, h));
      && ReadSide(old0, ODD_DISK, 1, crc, true) == SideValid(h, entries)
      && Fits(ODD_DISK, h, entries) && PrimaryStandsApart(old0, ODD_DISK, h, entries, crc)
      && !SafeThroughout(ODD_DISK, h, entries, crc, old0)
  {
    var crc := (a: seq<Data>) => 0;
    var h := ODD_HEADER;
    var old0 := Flushed(rest, SideWrites(entries, h));
    assert Sectors(ODD_DISK, h) == 32;
    SideOnDisk(rest, entries, h);
    SideReadsBack(old0, ODD_DISK, h, entries, crc, true);
    SideReadsBack(old0, ODD_DISK, h, entries, crc, false);
    forall k | 0 <= k < 1000 ensures k in old0 { KeysStay(rest, SideWrites(entries, h), k); }
    hide ReadSide, SideWrites;
    SafeExactlyWhen(ODD_DISK, h, entries, crc, old0);
  }

  lemma {:induction false} KeysStay(img: DiskImage, w: seq<(nat, Sector)>, k: nat)
    requires k in img
    ensures k in Flushed(img, w)
    decreases |w|
  {
    if w != [] { KeysStay(img, w[..|w| - 1], k); }
  }
}
