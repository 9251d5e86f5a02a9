/**
 The transaction journal of src/transaction/journal.cpp: two alternating checksummed headers, and
 records that are flushed before the header that counts them.
 */
module Journal {
  import opened Storage

  // ---------- what the journal stores ----------

  datatype Phase =
    | Prepared | Relocating | Paused | MetadataFinalize | FilesystemShrunk | PartitionPending
    | Complete | Failed | Staged | MetadataPaused | Compacted

  datatype RecordType =
    | RelocationIntent | CopyVerified | MetadataCommitted | Checkpoint | Note | DestinationReserved
    | OwnerSwitched | SourceReleased | MarkedDirty | MarkedClean | PartitionIntent | PartitionCommitted

  /** The numeric phase value, as stored in headers and in checkpoint records. */
  function PhaseCode(p: Phase): nat {
    match p
    case Prepared => 1 case Relocating => 2 case Paused => 3 case MetadataFinalize => 4
    case FilesystemShrunk => 5 case PartitionPending => 6 case Complete => 7 case Failed => 8
    case Staged => 9 case MetadataPaused => 10 case Compacted => 11
  }

  datatype Identity = Identity(operation: seq<nat>, filesystem: seq<nat>, deviceSize: nat, targetSize: nat)

  datatype Record = Record(
    kind: RecordType, sequence: nat, transaction: nat, source: nat, destination: nat,
    blocks: nat, inode: nat, aux: nat, crc: nat, state: nat)

  datatype Header = Header(id: Identity, sequence: nat, phase: Phase, count: nat)

  datatype Key = Slot(index: nat) | Rec(index: nat)

  datatype Value = HeaderValue(header: Header) | RecordValue(record: Record)

  type JournalImage = Image<Key, Value>

  // ---------- loading ----------

  datatype LoadResult = Loaded(header: Header, records: seq<Record>) | Corrupt

  predicate HasHeader(img: JournalImage, slot: nat) {
    Slot(slot) in img && img[Slot(slot)].Intact? && img[Slot(slot)].value.HeaderValue?
  }

  function HeaderAt(img: JournalImage, slot: nat): Header
    requires HasHeader(img, slot)
  {
    img[Slot(slot)].value.header
  }

  /** The authoritative header: the valid one, or of two valid ones of one operation the newer. */
  function Select(img: JournalImage): (r: LoadResult)
    ensures r.Loaded? ==> r.records == [] && (HasHeader(img, 0) || HasHeader(img, 1))
  {
    if HasHeader(img, 0) && HasHeader(img, 1) then
      var a, b := HeaderAt(img, 0), HeaderAt(img, 1);
      if a.id != b.id then Corrupt
      else if a.sequence >= b.sequence then Loaded(a, []) else Loaded(b, [])
    else if HasHeader(img, 0) then Loaded(HeaderAt(img, 0), [])
    else if HasHeader(img, 1) then Loaded(HeaderAt(img, 1), [])
    else Corrupt
  }

  /** Record cell `i` decodes and carries sequence i + 1. */
  predicate RecordValid(img: JournalImage, i: nat) {
    && Rec(i) in img && img[Rec(i)].Intact? && img[Rec(i)].value.RecordValue?
    && img[Rec(i)].value.record.sequence == i + 1
  }

  predicate RecordsValid(img: JournalImage, n: nat) {
    forall i: nat :: i < n ==> RecordValid(img, i)
  }

  function RecordAt(img: JournalImage, i: nat): Record
    requires RecordValid(img, i)
  {
    img[Rec(i)].value.record
  }

  function Records(img: JournalImage, n: nat): (r: seq<Record>)
    requires RecordsValid(img, n)
    ensures |r| == n
  {
    seq(n, i requires 0 <= i < n => RecordAt(img, i))
  }

  /** load: a count beyond the last record cell names a missing cell, so it fails here too. */
  function Load(img: JournalImage): LoadResult {
    var s := Select(img);
    if s.Corrupt? || !RecordsValid(img, s.header.count) then Corrupt
    else Loaded(s.header, Records(img, s.header.count))
  }

  /** The slot holds a valid header that no valid header in the other slot outranks; of equals the first is taken. */
  ghost predicate Authoritative(img: JournalImage, slot: nat, h: Header) {
    && slot < 2 && Slot(slot) in img && img[Slot(slot)] == Intact(HeaderValue(h))
    && forall g: Header :: Slot(1 - slot) in img && img[Slot(1 - slot)] == Intact(HeaderValue(g)) ==>
         g.id == h.id && (g.sequence < h.sequence || (g.sequence == h.sequence && slot == 0))
  }

  /** What load answers, cell by cell. */
  lemma LoadExactly(img: JournalImage, h: Header, rs: seq<Record>)
    ensures Load(img) == Loaded(h, rs) <==>
      && (Authoritative(img, 0, h) || Authoritative(img, 1, h)) && |rs| == h.count
      && forall i :: 0 <= i < |rs| ==> Rec(i) in img && img[Rec(i)] == Intact(RecordValue(rs[i])) && rs[i].sequence == i + 1
  {
    assert Select(img) == Loaded(h, []) <==> Authoritative(img, 0, h) || Authoritative(img, 1, h) by { SelectExactly(img, h); }
    hide Select, Authoritative;
    if Load(img) == Loaded(h, rs) {
      forall i | 0 <= i < |rs| ensures Rec(i) in img && img[Rec(i)] == Intact(RecordValue(rs[i])) && rs[i].sequence == i + 1 {
        assert RecordValid(img, i);
      }
    }
    if Select(img) == Loaded(h, []) && |rs| == h.count
      && forall i :: 0 <= i < |rs| ==> Rec(i) in img && img[Rec(i)] == Intact(RecordValue(rs[i])) && rs[i].sequence == i + 1
    {
      forall i: nat | i < h.count ensures RecordValid(img, i) { assert Rec(i) in img; }
      assert Records(img, h.count) == rs;
    }
  }

  lemma SelectExactly(img: JournalImage, h: Header)
    ensures Select(img) == Loaded(h, []) <==> Authoritative(img, 0, h) || Authoritative(img, 1, h)
  {
    if HasHeader(img, 0) { assert img[Slot(0)] == Intact(HeaderValue(HeaderAt(img, 0))); }
    if HasHeader(img, 1) { assert img[Slot(1)] == Intact(HeaderValue(HeaderAt(img, 1))); }
  }

  /** What a reader learns: the phase and the record list. */
  datatype Contents = Contents(phase: Phase, records: seq<Record>) | Unreadable

  function ContentsOf(img: JournalImage): Contents {
    match Load(img)
    case Loaded(h, rs) => Contents(h.phase, rs)
    case Corrupt => Unreadable
  }

  // ---------- writing ----------

  function Stamp(batch: seq<Record>, n: nat): (r: seq<Record>)
    ensures |r| == |batch|
    ensures forall i :: 0 <= i < |r| ==> r[i] == batch[i].(sequence := n + i + 1)
  {
    seq(|batch|, i requires 0 <= i < |batch| => batch[i].(sequence := n + i + 1))
  }

  function RecordWrites(batch: seq<Record>, n: nat): (r: seq<(Key, Value)>)
    ensures |r| == |batch|
    ensures forall i :: 0 <= i < |r| ==> r[i] == (Rec(n + i), RecordValue(Stamp(batch, n)[i]))
  {
    seq(|batch|, i requires 0 <= i < |batch| => (Rec(n + i), RecordValue(Stamp(batch, n)[i])))
  }

  function HeaderWrite(h: Header): (Key, Value) {
    (Slot(h.sequence % 2), HeaderValue(h))
  }

  /** The header that follows `h`. */
  function Next(h: Header, phase: Phase, count: nat): Header {
    Header(h.id, h.sequence + 1, phase, count)
  }

  /** The media a header update passes through: pending, then durable. */
  function HeaderMedia(img: JournalImage, h: Header): seq<Medium<Key, Value>> {
    [Medium(img, [HeaderWrite(h)]), Medium(Flushed(img, [HeaderWrite(h)]), [])]
  }

  function RecordsFlushed(img: JournalImage, h: Header, batch: seq<Record>): JournalImage {
    Flushed(img, RecordWrites(batch, h.count))
  }

  /** The media an append passes through before its header: records pending, then flushed. */
  function RecordMedia(img: JournalImage, h: Header, batch: seq<Record>): seq<Medium<Key, Value>> {
    var writes := RecordWrites(batch, h.count);
    seq(|batch|, i requires 0 <= i < |batch| => Medium(img, writes[..i + 1]))
    + [Medium(RecordsFlushed(img, h, batch), [])]
  }

  function AppendHeader(h: Header, batch: seq<Record>): Header {
    Next(h, h.phase, h.count + |batch|)
  }

  /** Every medium of one append_batch, in order. */
  function AppendMedia(img: JournalImage, h: Header, batch: seq<Record>): seq<Medium<Key, Value>> {
    RecordMedia(img, h, batch) + HeaderMedia(RecordsFlushed(img, h, batch), AppendHeader(h, batch))
  }

  function Appended(img: JournalImage, h: Header, batch: seq<Record>): JournalImage {
    Flushed(RecordsFlushed(img, h, batch), [HeaderWrite(AppendHeader(h, batch))])
  }

  function CheckpointRecord(lastTransaction: nat, phase: Phase): Record {
    Record(Checkpoint, 0, lastTransaction, 0, 0, 0, 0, PhaseCode(phase), 0, 0)
  }

  /** A checkpoint record carries the newest transaction and the phase, and no geometry. */
  lemma CheckpointCarries(lastTransaction: nat, phase: Phase)
    ensures var r := CheckpointRecord(lastTransaction, phase);
      && r.kind == Checkpoint && r.transaction == lastTransaction && r.aux == PhaseCode(phase)
      && r.source == r.destination == r.blocks == r.inode == r.crc == r.state == 0
  {
  }

  /** The second header of a checkpoint, which alone changes the phase. */
  function PhaseHeader(h: Header, r: Record, phase: Phase): Header {
    var a := AppendHeader(h, [r]);
    Next(a, phase, a.count)
  }

  function CheckpointMedia(img: JournalImage, h: Header, r: Record, phase: Phase): seq<Medium<Key, Value>> {
    AppendMedia(img, h, [r]) + HeaderMedia(Appended(img, h, [r]), PhaseHeader(h, r, phase))
  }

  function Checkpointed(img: JournalImage, h: Header, r: Record, phase: Phase): JournalImage {
    Flushed(Appended(img, h, [r]), [HeaderWrite(PhaseHeader(h, r, phase))])
  }

  // ---------- crash analysis ----------

  /** The cells of a journal file with room for `capacity` records. */
  ghost predicate Shaped(img: JournalImage, capacity: nat) {
    && Slot(0) in img && Slot(1) in img
    && (forall i: nat :: Rec(i) in img <==> i < capacity)
  }

  /**
   The slot that the next header does not overwrite holds a header with the current phase and count.
   */
  predicate Covered(img: JournalImage) {
    && Load(img).Loaded?
    && var h := Load(img).header;
       && HasHeader(img, h.sequence % 2)
       && var other := HeaderAt(img, h.sequence % 2);
          other.id == h.id && other.phase == h.phase && other.count == h.count
  }

  /** The newest header sits in the slot of its own parity. */
  predicate Settled(img: JournalImage) {
    && Load(img).Loaded?
    && var h := Load(img).header;
       HasHeader(img, h.sequence % 2) && HeaderAt(img, h.sequence % 2) == h
  }

  lemma LoadDependsOn(a: JournalImage, b: JournalImage)
    requires Slot(0) in a && Slot(1) in a && Slot(0) in b && Slot(1) in b
    requires a[Slot(0)] == b[Slot(0)] && a[Slot(1)] == b[Slot(1)]
    requires Load(a).Loaded?
    requires forall i: nat :: i < Load(a).header.count ==> Rec(i) in a && Rec(i) in b && b[Rec(i)] == a[Rec(i)]
    ensures Load(b) == Load(a)
  {
    assert Select(a) == Select(b);
    var n := Load(a).header.count;
    forall i: nat | i < n ensures RecordValid(b, i) {
      assert RecordValid(a, i);
    }
    assert Records(a, n) == Records(b, n);
  }

  /** While records are pending beyond the count, a crash reloads the old journal. */
  lemma RecordPhase(img: JournalImage, batch: seq<Record>, i: nat, crash: JournalImage)
    requires Slot(0) in img && Slot(1) in img && Load(img).Loaded? && i <= |batch|
    requires CrashImage(Medium(img, RecordWrites(batch, Load(img).header.count)[..i]), crash)
    ensures Load(crash) == Load(img)
    ensures Slot(0) in crash && Slot(1) in crash && crash[Slot(0)] == img[Slot(0)] && crash[Slot(1)] == img[Slot(1)]
  {
    var n := Load(img).header.count;
    var m := Medium(img, RecordWrites(batch, n)[..i]);
    assert Slot(0) in crash && Slot(1) in crash;
    assert Survives(m, Slot(0), crash[Slot(0)]);
    assert Survives(m, Slot(1), crash[Slot(1)]);
    forall j: nat | j < n ensures Rec(j) in img && Rec(j) in crash && crash[Rec(j)] == img[Rec(j)] {
      assert RecordValid(img, j);
      assert Survives(m, Rec(j), crash[Rec(j)]);
    }
    LoadDependsOn(img, crash);
  }

  lemma FlushedRecords(img: JournalImage, batch: seq<Record>, n: nat, k: Key)
    requires k.Rec? ==> n <= k.index ==> k.index - n < |batch|
    ensures var r := Flushed(img, RecordWrites(batch, n));
      if k.Rec? && n <= k.index then k in r && r[k] == Intact(RecordValue(Stamp(batch, n)[k.index - n]))
      else (k in r <==> k in img) && (k in img ==> r[k] == img[k])
  {
    if k.Rec? && n <= k.index {
      assert RecordWrites(batch, n)[k.index - n].0 == k;
      FlushedAt(img, RecordWrites(batch, n), k.index - n);
    } else {
      FlushedOther(img, RecordWrites(batch, n), k);
    }
  }

  /** Once flushed, the records lie ready beyond the count and the journal still loads as before. */
  lemma RecordsReady(img: JournalImage, batch: seq<Record>, capacity: nat)
    requires Shaped(img, capacity) && Load(img).Loaded?
    requires Load(img).header.count + |batch| <= capacity
    ensures var h := Load(img).header;
      var ready := RecordsFlushed(img, h, batch);
      && ready.Keys == img.Keys && Load(ready) == Load(img)
      && ready[Slot(0)] == img[Slot(0)] && ready[Slot(1)] == img[Slot(1)]
      && RecordsValid(ready, h.count + |batch|)
      && Records(ready, h.count + |batch|) == Load(img).records + Stamp(batch, h.count)
  {
    var h := Load(img).header;
    var n := h.count;
    var ready := RecordsFlushed(img, h, batch);
    FlushedKeys(img, RecordWrites(batch, n));
    FlushedRecords(img, batch, n, Slot(0));
    FlushedRecords(img, batch, n, Slot(1));
    forall i: nat | i < n ensures Rec(i) in img && Rec(i) in ready && ready[Rec(i)] == img[Rec(i)] {
      assert RecordValid(img, i);
      FlushedRecords(img, batch, n, Rec(i));
    }
    LoadDependsOn(img, ready);
    forall i: nat | i < n + |batch|
      ensures RecordValid(ready, i)
      ensures RecordAt(ready, i) == (Load(img).records + Stamp(batch, n))[i]
    {
      if i < n { assert RecordValid(img, i); }
      FlushedRecords(img, batch, n, Rec(i));
    }
  }

  /** The three outcomes of a crash while header `next` is pending. */
  lemma HeaderPhase(img: JournalImage, next: Header, crash: JournalImage)
    requires Slot(0) in img && Slot(1) in img && Load(img).Loaded?
    requires var h := Load(img).header;
             next.id == h.id && next.sequence == h.sequence + 1 && RecordsValid(img, next.count)
    requires CrashImage(Medium(img, [HeaderWrite(next)]), crash)
    ensures crash.Keys == img.Keys
    ensures Load(crash) == Load(img) || Load(crash) == Loaded(next, Records(img, next.count)) || crash[Slot(next.sequence % 2)] == Torn
    ensures Covered(img) ==> ContentsOf(crash) in {ContentsOf(img), Contents(next.phase, Records(img, next.count))}
    ensures Settled(img) ==> Settled(crash) && Load(crash) in {Load(img), Loaded(next, Records(img, next.count))}
  {
    var h := Load(img).header;
    var t := next.sequence % 2;
    var o := h.sequence % 2;
    var m := Medium(img, [HeaderWrite(next)]);
    assert Survives(m, Slot(o), crash[Slot(o)]) && Survives(m, Slot(t), crash[Slot(t)]);
    assert crash[Slot(o)] == img[Slot(o)];
    forall i: nat | Rec(i) in img ensures crash[Rec(i)] == img[Rec(i)] {
      assert Rec(i) in crash;
      assert Survives(m, Rec(i), crash[Rec(i)]);
    }
    HeaderCases(img, next, crash);
  }

  lemma SameRecords(a: JournalImage, b: JournalImage, n: nat)
    requires RecordsValid(a, n)
    requires forall i: nat :: Rec(i) in a ==> Rec(i) in b && b[Rec(i)] == a[Rec(i)]
    ensures RecordsValid(b, n) && Records(b, n) == Records(a, n)
  {
    forall i: nat | i < n ensures RecordValid(b, i) && RecordAt(a, i) == RecordAt(b, i) {
      assert RecordValid(a, i);
    }
  }

  lemma HeaderCases(img: JournalImage, next: Header, crash: JournalImage)
    requires Slot(0) in img && Slot(1) in img && Load(img).Loaded?
    requires var h := Load(img).header;
             next.id == h.id && next.sequence == h.sequence + 1 && RecordsValid(img, next.count)
    requires Slot(0) in crash && Slot(1) in crash
    requires var t := next.sequence % 2;
             && crash[Slot(1 - t)] == img[Slot(1 - t)]
             && crash[Slot(t)] in {img[Slot(t)], Torn, Intact(HeaderValue(next))}
    requires forall i: nat :: Rec(i) in img ==> Rec(i) in crash && crash[Rec(i)] == img[Rec(i)]
    ensures Load(crash) == Load(img) || Load(crash) == Loaded(next, Records(img, next.count)) || crash[Slot(next.sequence % 2)] == Torn
    ensures Covered(img) ==> ContentsOf(crash) in {ContentsOf(img), Contents(next.phase, Records(img, next.count))}
    ensures Settled(img) ==> Settled(crash) && Load(crash) in {Load(img), Loaded(next, Records(img, next.count))}
  {
    var h := Load(img).header;
    var t := next.sequence % 2;
    var o := 1 - t;
    SameRecords(img, crash, h.count);
    SameRecords(img, crash, next.count);
    if crash[Slot(t)] == Intact(HeaderValue(next)) {
      assert HasHeader(crash, t) && HeaderAt(crash, t) == next;
      assert HasHeader(crash, o) == HasHeader(img, o);
      assert Select(crash) == Loaded(next, []);
    } else if crash[Slot(t)] == img[Slot(t)] {
      assert Select(crash) == Select(img);
    } else {
      assert !HasHeader(crash, t);
      assert HasHeader(crash, o) == HasHeader(img, o);
    }
  }

  // ---------- one operation ----------

  ghost predicate Appendable(img: JournalImage, batch: seq<Record>, capacity: nat) {
    && Shaped(img, capacity) && Load(img).Loaded?
    && batch != [] && Load(img).header.count + |batch| <= capacity
  }

  function AppendedContents(img: JournalImage, batch: seq<Record>): Contents
    requires Load(img).Loaded?
  {
    var Loaded(h, rs) := Load(img);
    Contents(h.phase, rs + Stamp(batch, h.count))
  }

  lemma HeaderFlushed(img: JournalImage, next: Header)
    requires Slot(0) in img && Slot(1) in img && Load(img).Loaded?
    requires var h := Load(img).header;
             next.id == h.id && next.sequence == h.sequence + 1 && RecordsValid(img, next.count)
    ensures var r := Flushed(img, [HeaderWrite(next)]);
      r.Keys == img.Keys && Load(r) == Loaded(next, Records(img, next.count)) && Settled(r)
  {
    var w := [HeaderWrite(next)];
    var r := Flushed(img, w);
    assert w[..|w| - 1] == [];
    assert Flushed(img, w[..|w| - 1]) == img;
    assert r == img[Slot(next.sequence % 2) := Intact(HeaderValue(next))];
    HeaderCases(img, next, r);
    assert HasHeader(r, next.sequence % 2) && HeaderAt(r, next.sequence % 2) == next;
    assert Select(r) == Loaded(next, []);
    SameRecords(img, r, next.count);
  }

  /** A completed append: the journal holds the batch and its newest header is in its own slot. */
  lemma AppendCompletes(img: JournalImage, batch: seq<Record>, capacity: nat)
    requires Appendable(img, batch, capacity)
    ensures var h := Load(img).header;
      var done := Appended(img, h, batch);
      && Shaped(done, capacity) && Settled(done)
      && Load(done) == Loaded(AppendHeader(h, batch), Load(img).records + Stamp(batch, h.count))
  {
    RecordsReady(img, batch, capacity);
    var h := Load(img).header;
    HeaderFlushed(RecordsFlushed(img, h, batch), AppendHeader(h, batch));
  }

  /**
   Crash atomicity of append_batch: from a covered journal, a crash at any point reloads as exactly
   the old or the new phase and record list. A settled journal stays settled.
   */
  lemma AppendAtomic(img: JournalImage, batch: seq<Record>, capacity: nat, i: nat, crash: JournalImage)
    requires Appendable(img, batch, capacity)
    requires i < |AppendMedia(img, Load(img).header, batch)|
    requires CrashImage(AppendMedia(img, Load(img).header, batch)[i], crash)
    ensures Shaped(crash, capacity)
    ensures Covered(img) ==> ContentsOf(crash) in {ContentsOf(img), AppendedContents(img, batch)}
    ensures Settled(img) ==> Settled(crash) && ContentsOf(crash) in {ContentsOf(img), AppendedContents(img, batch)}
  {
    hide Flushed, RecordsValid, Records, Select, Stamp, Covered, Settled, ContentsOf, CrashImage;
    var h := Load(img).header;
    var next := AppendHeader(h, batch);
    var ready := RecordsFlushed(img, h, batch);
    RecordsReady(img, batch, capacity);
    SameSlots(img, ready);
    if i < |batch| {
      RecordPhase(img, batch, i + 1, crash);
      SameSlots(img, crash);
      SameKeys(Medium(img, RecordWrites(batch, h.count)[..i + 1]), crash);
    } else if i == |batch| {
      QuiescentCrash(ready, crash);
    } else if i == |batch| + 1 {
      HeaderPhase(ready, next, crash);
      LoadedContents(crash, next, Records(ready, next.count));
      LoadedContents(crash, h, Load(img).records);
      LoadedContents(img, h, Load(img).records);
    } else {
      AppendCompletes(img, batch, capacity);
      QuiescentCrash(Appended(img, h, batch), crash);
      LoadedContents(crash, next, Records(ready, next.count));
    }
  }

  lemma SameKeys(m: Medium<Key, Value>, crash: JournalImage)
    requires CrashImage(m, crash)
    ensures crash.Keys == m.durable.Keys
  {
  }

  lemma LoadedContents(img: JournalImage, h: Header, rs: seq<Record>)
    ensures Load(img) == Loaded(h, rs) ==> ContentsOf(img) == Contents(h.phase, rs)
  {
    hide Load;
  }

  /** Images that agree on the headers and load alike are covered, settled and read alike. */
  lemma SameSlots(a: JournalImage, b: JournalImage)
    requires Slot(0) in a && Slot(1) in a && Slot(0) in b && Slot(1) in b
    requires b[Slot(0)] == a[Slot(0)] && b[Slot(1)] == a[Slot(1)] && Load(a) == Load(b)
    ensures ContentsOf(a) == ContentsOf(b) && (Covered(a) <==> Covered(b)) && (Settled(a) <==> Settled(b))
  {
    hide Load;
    assert HasHeader(a, 0) == HasHeader(b, 0) && HasHeader(a, 1) == HasHeader(b, 1);
  }

  /** Of two valid headers the older counts no more records. */
  predicate Ordered(img: JournalImage) {
    HasHeader(img, 0) && HasHeader(img, 1) ==>
      var a, b := HeaderAt(img, 0), HeaderAt(img, 1);
      (a.sequence >= b.sequence ==> a.count >= b.count) && (b.sequence > a.sequence ==> b.count >= a.count)
  }

  /** The condition is exact: an uncovered journal has a crash that loses or rewinds it. */
  lemma UncoveredAppendLoses(img: JournalImage, batch: seq<Record>, capacity: nat)
    returns (i: nat, crash: JournalImage)
    requires Appendable(img, batch, capacity) && Ordered(img) && !Covered(img)
    ensures i < |AppendMedia(img, Load(img).header, batch)|
    ensures CrashImage(AppendMedia(img, Load(img).header, batch)[i], crash)
    ensures ContentsOf(crash) !in {ContentsOf(img), AppendedContents(img, batch)}
  {
    var t := (Load(img).header.sequence + 1) % 2;
    i, crash := TornHeader(img, batch, capacity);
    assert !HasHeader(crash, t);
    assert HasHeader(crash, 1 - t) == HasHeader(img, 1 - t);
    if HasHeader(img, 1 - t) {
      assert HeaderAt(crash, 1 - t) == HeaderAt(img, 1 - t);
    }
  }

  /** Old, record added, phase changed. */
  function CheckpointOutcomes(img: JournalImage, r: Record, phase: Phase): set<Contents>
    requires Load(img).Loaded?
  {
    {ContentsOf(img), AppendedContents(img, [r]), AppendedContents(img, [r]).(phase := phase)}
  }

  /** A crash at any point of checkpoint reloads as one of exactly three states. */
  lemma CheckpointAtomic(img: JournalImage, r: Record, phase: Phase, capacity: nat, i: nat, crash: JournalImage)
    requires Appendable(img, [r], capacity)
    requires i < |CheckpointMedia(img, Load(img).header, r, phase)|
    requires CrashImage(CheckpointMedia(img, Load(img).header, r, phase)[i], crash)
    ensures Shaped(crash, capacity)
    ensures Covered(img) ==> ContentsOf(crash) in CheckpointOutcomes(img, r, phase)
    ensures Settled(img) ==> Settled(crash) && ContentsOf(crash) in CheckpointOutcomes(img, r, phase)
  {
    var h := Load(img).header;
    var n := |AppendMedia(img, h, [r])|;
    if i < n {
      AppendAtomic(img, [r], capacity, i, crash);
    } else {
      AppendCompletes(img, [r], capacity);
      var done := Appended(img, h, [r]);
      if i == n {
        HeaderPhase(done, PhaseHeader(h, r, phase), crash);
      } else {
        HeaderFlushed(done, PhaseHeader(h, r, phase));
        QuiescentCrash(Checkpointed(img, h, r, phase), crash);
      }
    }
  }

  lemma CheckpointCompletes(img: JournalImage, r: Record, phase: Phase, capacity: nat)
    requires Appendable(img, [r], capacity)
    ensures var h := Load(img).header;
      var done := Checkpointed(img, h, r, phase);
      && Shaped(done, capacity) && Settled(done)
      && Load(done) == Loaded(PhaseHeader(h, r, phase), Load(img).records + Stamp([r], h.count))
  {
    AppendCompletes(img, [r], capacity);
    var h := Load(img).header;
    HeaderFlushed(Appended(img, h, [r]), PhaseHeader(h, r, phase));
  }

  // ---------- whole runs with crashes ----------

  datatype Op = AppendOp(batch: seq<Record>) | CheckpointOp(phase: Phase)

  function LastTransaction(rs: seq<Record>): nat {
    if rs == [] then 0
    else
      var rest := LastTransaction(rs[..|rs| - 1]);
      var last := rs[|rs| - 1].transaction;
      if rest >= last then rest else last
  }

  /** The largest transaction number among the records, or 0. */
  lemma {:induction false} LastTransactionMeans(rs: seq<Record>)
    ensures forall r :: r in rs ==> r.transaction <= LastTransaction(rs)
    ensures LastTransaction(rs) == 0 || exists r :: r in rs && r.transaction == LastTransaction(rs)
    decreases |rs|
  {
    if rs != [] {
      var n := |rs| - 1;
      LastTransactionMeans(rs[..n]);
      assert rs == rs[..n] + [rs[n]];
      assert rs[n] in rs;
    }
  }

  /** The records an operation adds to the journal in `img`. */
  function Adds(img: JournalImage, op: Op): seq<Record>
    requires Load(img).Loaded?
  {
    match op
    case AppendOp(batch) => batch
    case CheckpointOp(phase) => [CheckpointRecord(LastTransaction(Load(img).records), phase)]
  }

  function OpMedia(img: JournalImage, op: Op): seq<Medium<Key, Value>>
    requires Load(img).Loaded?
  {
    var h := Load(img).header;
    match op
    case AppendOp(batch) => AppendMedia(img, h, batch)
    case CheckpointOp(phase) => CheckpointMedia(img, h, Adds(img, op)[0], phase)
  }

  /** What `op` may leave behind, whether it completes, fails or is cut by a crash. */
  ghost predicate Leaves(img: JournalImage, op: Op, capacity: nat, after: JournalImage) {
    if Load(img).Loaded? && Appendable(img, Adds(img, op), capacity) then
      after == img || exists i :: 0 <= i < |OpMedia(img, op)| && CrashImage(OpMedia(img, op)[i], after)
    else after == img
  }

  /** The image an operation leaves when it reports success. */
  function Completed(img: JournalImage, op: Op): JournalImage
    requires Load(img).Loaded?
  {
    var h := Load(img).header;
    match op
    case AppendOp(batch) => Appended(img, h, batch)
    case CheckpointOp(phase) => Checkpointed(img, h, Adds(img, op)[0], phase)
  }

  lemma SettledStep(img: JournalImage, op: Op, capacity: nat, after: JournalImage)
    requires Shaped(img, capacity) && Settled(img)
    requires Leaves(img, op, capacity, after)
    ensures Shaped(after, capacity) && Settled(after)
    ensures Load(img).records <= Load(after).records
  {
    hide AppendMedia, CheckpointMedia, RecordValid;
    if after != img {
      var i :| 0 <= i < |OpMedia(img, op)| && CrashImage(OpMedia(img, op)[i], after);
      match op
      case AppendOp(batch) => AppendAtomic(img, batch, capacity, i, after);
      case CheckpointOp(phase) => CheckpointAtomic(img, Adds(img, op)[0], phase, capacity, i, after);
    }
  }

  lemma CompletedAdds(img: JournalImage, op: Op, capacity: nat)
    requires Load(img).Loaded? && Appendable(img, Adds(img, op), capacity)
    ensures Settled(Completed(img, op))
    ensures Load(Completed(img, op)).records == Load(img).records + Stamp(Adds(img, op), Load(img).header.count)
  {
    match op
    case AppendOp(batch) => AppendCompletes(img, batch, capacity);
    case CheckpointOp(phase) => CheckpointCompletes(img, Adds(img, op)[0], phase, capacity);
  }

  ghost predicate IsRun(imgs: seq<JournalImage>, ops: seq<Op>, capacity: nat) {
    && |imgs| == |ops| + 1
    && forall i :: 0 <= i < |ops| ==> Leaves(imgs[i], ops[i], capacity, imgs[i + 1])
  }

  /**
   Durability over every run: any number of operations, each completed, failed or cut by a crash.
   The journal always loads, and every record it ever held is still there at every later point.
   */
  lemma {:induction false} RunDurable(imgs: seq<JournalImage>, ops: seq<Op>, capacity: nat, i: nat, j: nat)
    requires IsRun(imgs, ops, capacity) && Shaped(imgs[0], capacity) && Settled(imgs[0])
    requires i <= j < |imgs|
    ensures Shaped(imgs[j], capacity) && Settled(imgs[j]) && Settled(imgs[i])
    ensures Load(imgs[i]).records <= Load(imgs[j]).records
    decreases j
  {
    hide Load, Leaves;
    if j > 0 {
      RunDurable(imgs, ops, capacity, if i < j then i else j - 1, j - 1);
      SettledStep(imgs[j - 1], ops[j - 1], capacity, imgs[j]);
    }
  }

  /** An acknowledged operation's records survive all later crashes. */
  lemma AcknowledgedSurvives(imgs: seq<JournalImage>, ops: seq<Op>, capacity: nat, i: nat, j: nat)
    requires IsRun(imgs, ops, capacity) && Shaped(imgs[0], capacity) && Settled(imgs[0])
    requires i < j < |imgs|
    requires Load(imgs[i]).Loaded? && Appendable(imgs[i], Adds(imgs[i], ops[i]), capacity)
    requires imgs[i + 1] == Completed(imgs[i], ops[i])
    ensures Settled(imgs[j])
    ensures Load(imgs[i]).records + Stamp(Adds(imgs[i], ops[i]), Load(imgs[i]).header.count) <= Load(imgs[j]).records
  {
    hide Load, Completed, OpMedia, Leaves;
    RunDurable(imgs, ops, capacity, i + 1, j);
    CompletedAdds(imgs[i], ops[i], capacity);
  }

  // ---------- a freshly created journal ----------

  /** create: sequence 1 goes to slot 0 and sequence 0 to slot 1. */
  ghost predicate Created(img: JournalImage, id: Identity, capacity: nat) {
    && Shaped(img, capacity)
    && img[Slot(0)] == Intact(HeaderValue(Header(id, 1, Prepared, 0)))
    && img[Slot(1)] == Intact(HeaderValue(Header(id, 0, Prepared, 0)))
  }

  /** One crash is safe from creation, and any completed first update settles the journal. */
  lemma CreatedIsCovered(img: JournalImage, id: Identity, capacity: nat)
    requires Created(img, id, capacity)
    ensures Covered(img) && !Settled(img)
    ensures ContentsOf(img) == Contents(Prepared, [])
  {
    assert HasHeader(img, 0) && HasHeader(img, 1);
    assert Select(img) == Loaded(Header(id, 1, Prepared, 0), []);
  }

  /** Two crashes in a row right after creation can lose both headers. */
  lemma SecondCrashLosesCreated(img: JournalImage, id: Identity, capacity: nat, batch: seq<Record>)
    returns (i: nat, first: JournalImage, j: nat, second: JournalImage)
    requires Created(img, id, capacity) && batch != [] && |batch| <= capacity
    ensures Load(img).Loaded? && i < |AppendMedia(img, Load(img).header, batch)|
    ensures CrashImage(AppendMedia(img, Load(img).header, batch)[i], first)
    ensures ContentsOf(first) == ContentsOf(img)
    ensures Load(first).Loaded? && j < |AppendMedia(first, Load(first).header, batch)|
    ensures CrashImage(AppendMedia(first, Load(first).header, batch)[j], second)
    ensures ContentsOf(second) == Unreadable
  {
    hide AppendMedia, CrashImage, Load;
    CreatedIsCovered(img, id, capacity);
    CreatedLoads(img, id, capacity);
    i, first := TornHeader(img, batch, capacity);
    OlderLoads(first, id, capacity);
    j, second := TornHeader(first, batch, capacity);
    NoHeaderLoads(second);
  }

  lemma CreatedLoads(img: JournalImage, id: Identity, capacity: nat)
    requires Created(img, id, capacity)
    ensures Load(img) == Loaded(Header(id, 1, Prepared, 0), [])
  {
    assert HasHeader(img, 0) && HasHeader(img, 1);
    assert Select(img) == Loaded(Header(id, 1, Prepared, 0), []);
    assert Records(img, 0) == [];
  }

  /** With the newer header torn, the older one of a new journal is read. */
  lemma OlderLoads(img: JournalImage, id: Identity, capacity: nat)
    requires Shaped(img, capacity) && img[Slot(0)] == Torn && img[Slot(1)] == Intact(HeaderValue(Header(id, 0, Prepared, 0)))
    ensures Load(img) == Loaded(Header(id, 0, Prepared, 0), []) && ContentsOf(img) == Contents(Prepared, [])
  {
    assert !HasHeader(img, 0) && HasHeader(img, 1);
    assert Select(img) == Loaded(Header(id, 0, Prepared, 0), []);
    assert Records(img, 0) == [];
  }

  lemma NoHeaderLoads(img: JournalImage)
    requires Slot(0) in img && Slot(1) in img && img[Slot(0)] == Torn && img[Slot(1)] == Torn
    ensures ContentsOf(img) == Unreadable
  {
    assert !HasHeader(img, 0) && !HasHeader(img, 1);
  }

  // ---------- the order of the two headers ----------

  lemma OrderedHeader(img: JournalImage, next: Header, crash: JournalImage)
    requires Load(img).Loaded? && Ordered(img) && next.sequence == Load(img).header.sequence + 1 && next.count >= Load(img).header.count
    requires Slot(0) in img && Slot(1) in img && Slot(0) in crash && Slot(1) in crash
    requires crash[Slot(1 - next.sequence % 2)] == img[Slot(1 - next.sequence % 2)]
    requires crash[Slot(next.sequence % 2)] in {img[Slot(next.sequence % 2)], Torn, Intact(HeaderValue(next))}
    ensures Ordered(crash)
  {
    hide RecordsValid, Records;
    var t := next.sequence % 2;
    var o := 1 - t;
    if HasHeader(crash, 0) && HasHeader(crash, 1) {
      assert HasHeader(img, o) && HeaderAt(crash, o) == HeaderAt(img, o);
      NewestHeader(img, o);
      if crash[Slot(t)] == img[Slot(t)] {
        assert HasHeader(img, t) && HeaderAt(crash, t) == HeaderAt(img, t);
      } else {
        assert HeaderAt(crash, t) == next;
      }
    }
  }

  /** No valid header is newer than the one that is loaded, nor counts more. */
  lemma NewestHeader(img: JournalImage, slot: nat)
    requires Load(img).Loaded? && Ordered(img) && slot <= 1 && HasHeader(img, slot)
    ensures HeaderAt(img, slot).sequence <= Load(img).header.sequence && HeaderAt(img, slot).count <= Load(img).header.count
  {
    hide RecordsValid, Records;
  }

  lemma OrderedSame(a: JournalImage, b: JournalImage)
    requires Ordered(a) && Slot(0) in a && Slot(1) in a && Slot(0) in b && Slot(1) in b
    requires b[Slot(0)] == a[Slot(0)] && b[Slot(1)] == a[Slot(1)]
    ensures Ordered(b)
  {
    assert HasHeader(b, 0) == HasHeader(a, 0) && HasHeader(b, 1) == HasHeader(a, 1);
  }

  /** While one header is pending or once it is flushed the order is kept. */
  lemma OrderedPending(img: JournalImage, next: Header, crash: JournalImage)
    requires Load(img).Loaded? && Ordered(img) && next.sequence == Load(img).header.sequence + 1 && next.count >= Load(img).header.count
    requires Slot(0) in img && Slot(1) in img
    requires CrashImage(Medium(img, [HeaderWrite(next)]), crash) || crash == Flushed(img, [HeaderWrite(next)])
    ensures Ordered(crash)
  {
    hide Load, Ordered;
    var t := next.sequence % 2;
    var w := [HeaderWrite(next)];
    if crash == Flushed(img, w) {
      assert w[..|w| - 1] == [];
      assert Flushed(img, w[..|w| - 1]) == img;
    } else {
      var m := Medium(img, w);
      assert Survives(m, Slot(t), crash[Slot(t)]) && Survives(m, Slot(1 - t), crash[Slot(1 - t)]);
    }
    OrderedHeader(img, next, crash);
  }

  lemma OrderedAppend(img: JournalImage, batch: seq<Record>, capacity: nat, i: nat, crash: JournalImage)
    requires Appendable(img, batch, capacity) && Ordered(img)
    requires i < |AppendMedia(img, Load(img).header, batch)|
    requires CrashImage(AppendMedia(img, Load(img).header, batch)[i], crash)
    ensures Ordered(crash) && Ordered(Appended(img, Load(img).header, batch))
  {
    hide Flushed, RecordValid, Select, Stamp, Ordered, CrashImage;
    var h := Load(img).header;
    var next := AppendHeader(h, batch);
    var ready := RecordsFlushed(img, h, batch);
    RecordsReady(img, batch, capacity);
    OrderedSame(img, ready);
    OrderedPending(ready, next, Appended(img, h, batch));
    if i < |batch| {
      RecordPhase(img, batch, i + 1, crash);
      OrderedSame(img, crash);
    } else if i == |batch| {
      QuiescentCrash(ready, crash);
    } else if i == |batch| + 1 {
      OrderedPending(ready, next, crash);
    } else {
      QuiescentCrash(Appended(img, h, batch), crash);
    }
  }

  lemma OrderedCheckpoint(img: JournalImage, r: Record, phase: Phase, capacity: nat, i: nat, crash: JournalImage)
    requires Appendable(img, [r], capacity) && Ordered(img)
    requires i < |CheckpointMedia(img, Load(img).header, r, phase)|
    requires CrashImage(CheckpointMedia(img, Load(img).header, r, phase)[i], crash)
    ensures Ordered(crash)
  {
    hide Flushed, RecordValid, Select, Stamp, Ordered, CrashImage, AppendMedia;
    var h := Load(img).header;
    var n := |AppendMedia(img, h, [r])|;
    AppendLength(img, h, [r]);
    if i < n {
      OrderedAppend(img, [r], capacity, i, crash);
    } else {
      AppendCompletes(img, [r], capacity);
      var done := Appended(img, h, [r]);
      LastAppendMedium(img, h, [r]);
      OrderedAppend(img, [r], capacity, n - 1, done);
      var next := PhaseHeader(h, r, phase);
      if i == n {
        OrderedPending(done, next, crash);
      } else {
        OrderedPending(done, next, Checkpointed(img, h, r, phase));
        QuiescentCrash(Checkpointed(img, h, r, phase), crash);
      }
    }
  }

  lemma AppendLength(img: JournalImage, h: Header, batch: seq<Record>)
    ensures |AppendMedia(img, h, batch)| == |batch| + 3
  {
  }

  lemma LastAppendMedium(img: JournalImage, h: Header, batch: seq<Record>)
    ensures var done := Appended(img, h, batch);
      CrashImage(AppendMedia(img, h, batch)[|AppendMedia(img, h, batch)| - 1], done)
  {
    var done := Appended(img, h, batch);
    var m := Medium(done, []);
    assert AppendMedia(img, h, batch)[|AppendMedia(img, h, batch)| - 1] == m;
    forall k | k in done ensures Survives(m, k, done[k]) { }
  }

  lemma OrderedStep(img: JournalImage, op: Op, capacity: nat, after: JournalImage)
    requires Shaped(img, capacity) && Ordered(img) && Leaves(img, op, capacity, after)
    ensures Shaped(after, capacity) && Ordered(after)
  {
    hide AppendMedia, CheckpointMedia, RecordValid, Ordered, CrashImage;
    if after != img {
      var i :| 0 <= i < |OpMedia(img, op)| && CrashImage(OpMedia(img, op)[i], after);
      match op
      case AppendOp(batch) =>
        AppendAtomic(img, batch, capacity, i, after);
        OrderedAppend(img, batch, capacity, i, after);
      case CheckpointOp(phase) =>
        CheckpointAtomic(img, Adds(img, op)[0], phase, capacity, i, after);
        OrderedCheckpoint(img, Adds(img, op)[0], phase, capacity, i, after);
    }
  }

  /** Over every run from a created journal, whatever crashes it meets, the older of two valid headers counts no more records. */
  lemma {:induction false} RunOrdered(imgs: seq<JournalImage>, ops: seq<Op>, id: Identity, capacity: nat, j: nat)
    requires IsRun(imgs, ops, capacity) && Created(imgs[0], id, capacity) && j < |imgs|
    ensures Shaped(imgs[j], capacity) && Ordered(imgs[j])
    decreases j
  {
    hide Load, Leaves;
    if j > 0 {
      hide Ordered;
      RunOrdered(imgs, ops, id, capacity, j - 1);
      OrderedStep(imgs[j - 1], ops[j - 1], capacity, imgs[j]);
    }
  }

  /** Every crash of the append reloads as the old or the new journal. */
  ghost predicate AtomicAppend(img: JournalImage, batch: seq<Record>)
    requires Load(img).Loaded?
  {
    forall i, crash :: 0 <= i < |AppendMedia(img, Load(img).header, batch)| && CrashImage(AppendMedia(img, Load(img).header, batch)[i], crash) ==> OldOrNew(img, batch, crash)
  }

  ghost predicate OldOrNew(img: JournalImage, batch: seq<Record>, crash: JournalImage)
    requires Load(img).Loaded?
  {
    ContentsOf(crash) in {ContentsOf(img), AppendedContents(img, batch)}
  }

  /**
   The exact condition on every journal that can arise: an append is crash-atomic precisely when the
   slot it does not write repeats the current phase and count.
   */
  lemma AppendAtomicIff(imgs: seq<JournalImage>, ops: seq<Op>, id: Identity, capacity: nat, j: nat, batch: seq<Record>)
    requires IsRun(imgs, ops, capacity) && Created(imgs[0], id, capacity) && j < |imgs| && Appendable(imgs[j], batch, capacity)
    ensures Covered(imgs[j]) <==> AtomicAppend(imgs[j], batch)
  {
    hide Load, Covered, AppendMedia, CrashImage, IsRun, ContentsOf, AppendedContents;
    var img := imgs[j];
    RunOrdered(imgs, ops, id, capacity, j);
    if Covered(img) {
      forall i, crash | 0 <= i < |AppendMedia(img, Load(img).header, batch)| && CrashImage(AppendMedia(img, Load(img).header, batch)[i], crash)
        ensures OldOrNew(img, batch, crash)
      {
        AppendAtomic(img, batch, capacity, i, crash);
      }
    } else {
      var i, crash := UncoveredAppendLoses(img, batch, capacity);
      assert !OldOrNew(img, batch, crash);
    }
  }

  /** A crash that tears the pending header of an append. */
  lemma TornHeader(img: JournalImage, batch: seq<Record>, capacity: nat) returns (i: nat, crash: JournalImage)
    requires Appendable(img, batch, capacity)
    ensures var t := (Load(img).header.sequence + 1) % 2;
      && i < |AppendMedia(img, Load(img).header, batch)|
      && CrashImage(AppendMedia(img, Load(img).header, batch)[i], crash)
      && Shaped(crash, capacity)
      && crash[Slot(t)] == Torn && crash[Slot(1 - t)] == img[Slot(1 - t)]
  {
    var h := Load(img).header;
    var next := AppendHeader(h, batch);
    var ready := RecordsFlushed(img, h, batch);
    RecordsReady(img, batch, capacity);
    i := |batch| + 1;
    crash := ready[Slot(next.sequence % 2) := Torn];
    var m := Medium(ready, [HeaderWrite(next)]);
    assert AppendMedia(img, h, batch)[i] == m;
    assert m.pending[0].0 == Slot(next.sequence % 2);
    forall k | k in crash ensures Survives(m, k, crash[k]) {
    }
  }

  // ---------- the journal object ----------

  function CommittedCount(rs: seq<Record>): nat {
    if rs == [] then 0
    else CommittedCount(rs[..|rs| - 1]) + if rs[|rs| - 1].kind == MetadataCommitted then 1 else 0
  }

  ghost function CommittedAt(rs: seq<Record>): set<nat> {
    set i | 0 <= i < |rs| && rs[i].kind == MetadataCommitted
  }

  lemma {:induction false} CommittedMeans(rs: seq<Record>)
    ensures CommittedCount(rs) == |CommittedAt(rs)|
    decreases |rs|
  {
    if rs == [] {
      assert CommittedAt(rs) == {};
    } else {
      var n := |rs| - 1;
      CommittedMeans(rs[..n]);
      assert CommittedAt(rs) == if rs[n].kind == MetadataCommitted then CommittedAt(rs[..n]) + {n} else CommittedAt(rs[..n]);
    }
  }

  lemma {:induction false} FoldsIgnoreStamp(rs: seq<Record>, batch: seq<Record>, n: nat, i: nat)
    requires i <= |batch|
    ensures LastTransaction(rs + Stamp(batch, n)[..i]) == LastTransaction(rs + batch[..i])
    ensures CommittedCount(rs + Stamp(batch, n)[..i]) == CommittedCount(rs + batch[..i])
    decreases i
  {
    var a, b := rs + Stamp(batch, n)[..i], rs + batch[..i];
    if i == 0 {
      assert a == rs == b;
    } else {
      FoldsIgnoreStamp(rs, batch, n, i - 1);
      assert a[..|a| - 1] == rs + Stamp(batch, n)[..i - 1];
      assert b[..|b| - 1] == rs + batch[..i - 1];
    }
  }

  lemma CountBound(img: JournalImage, capacity: nat)
    requires Shaped(img, capacity) && Load(img).Loaded?
    ensures Load(img).header.count <= capacity
  {
    var n := Load(img).header.count;
    if n > 0 { assert RecordValid(img, n - 1); }
  }

  type Trace = seq<Medium<Key, Value>>

  /** Between `before` and `after` the device went through a prefix of `media`. */
  ghost predicate Ran(before: Trace, after: Trace, media: Trace) {
    && |before| <= |after| <= |before| + |media|
    && after == before + media[..|after| - |before|]
  }

  lemma RanThen(before: Trace, mid: Trace, after: Trace, first: Trace, second: Trace)
    requires Ran(before, mid, first)
    requires after == mid || (mid == before + first && Ran(mid, after, second))
    ensures Ran(before, after, first + second)
    ensures mid == before + first && after == mid + second ==> after == before + (first + second)
  {
    if mid == before + first && after != mid {
      var k := |after| - |mid|;
      assert (first + second)[..|first| + k] == first + second[..k];
    } else {
      assert (first + second)[..|mid| - |before|] == first[..|mid| - |before|];
      if mid == before + first {
        assert first[..|first|] == first;
        assert second[..0] == [];
      }
    }
  }

  datatype Outcome = Ok | ReadOnly | Full | IoError | CorruptJournal

  class TransactionJournal {
    const dev: Device<Key, Value>
    const capacity: nat
    const writable: bool
    var id: Identity
    var phase: Phase
    var headerSequence: nat
    var recordCount: nat
    var committed: nat
    var lastTransaction: nat

    /** The in-memory status is what a load of the durable content would give. */
    ghost predicate Valid()
      reads this, dev
    {
      && dev.medium.pending == [] && Shaped(dev.medium.durable, capacity)
      && Load(dev.medium.durable).Loaded?
      && Status(Load(dev.medium.durable))
    }

    ghost predicate Status(l: LoadResult)
      reads this
    {
      && l.Loaded?
      && l.header == Header(id, headerSequence, phase, recordCount)
      && lastTransaction == LastTransaction(l.records) && committed == CommittedCount(l.records)
    }

    constructor (d: Device<Key, Value>, cap: nat, w: bool)
      ensures dev == d && capacity == cap && writable == w
      ensures headerSequence == recordCount == committed == lastTransaction == 0
    {
      dev, capacity, writable := d, cap, w;
      id, phase := Identity([], [], 0, 0), Prepared;
      headerSequence, recordCount, committed, lastTransaction := 0, 0, 0, 0;
    }

    /** load: reads both headers, picks one, and walks its records. */
    method LoadStatus() returns (r: Outcome)
      requires dev.medium.pending == [] && Shaped(dev.medium.durable, capacity)
      requires committed == lastTransaction == 0
      modifies this
      ensures dev.medium == old(dev.medium)
      ensures r == Ok <==> Load(dev.medium.durable).Loaded?
      ensures r == Ok ==> Valid()
    {
      var img := dev.medium.durable;
      var s := Select(img);
      if s.Corrupt? { return CorruptJournal; }
      id, phase, headerSequence, recordCount := s.header.id, s.header.phase, s.header.sequence, s.header.count;
      if recordCount > capacity {
        assert !RecordValid(img, capacity);
        return CorruptJournal;
      }
      for i := 0 to recordCount
        invariant s.header == Header(id, headerSequence, phase, recordCount)
        invariant RecordsValid(img, i)
        invariant lastTransaction == LastTransaction(Records(img, i)) && committed == CommittedCount(Records(img, i))
      {
        if !RecordValid(img, i) { return CorruptJournal; }
        var rec := RecordAt(img, i);
        assert Records(img, i + 1)[..i] == Records(img, i);
        lastTransaction := if lastTransaction >= rec.transaction then lastTransaction else rec.transaction;
        if rec.kind == MetadataCommitted { committed := committed + 1; }
      }
      r := Ok;
    }

    /** write_header followed by flush, the tail of both operations. */
    method WriteHeader(next: Header) returns (ok: bool)
      requires dev.medium.pending == []
      modifies dev
      ensures dev.failed == (old(dev.failed) || !ok)
      ensures Ran(old(dev.trace), dev.trace, HeaderMedia(old(dev.medium).durable, next))
      ensures ok ==> dev.trace == old(dev.trace) + HeaderMedia(old(dev.medium).durable, next)
      ensures ok ==> dev.medium == Medium(Flushed(old(dev.medium).durable, [HeaderWrite(next)]), [])
    {
      hide Flushed;
      var w := HeaderWrite(next);
      ghost var media := HeaderMedia(dev.medium.durable, next);
      ok := dev.Write(w.0, w.1);
      assert dev.medium == Medium(old(dev.medium).durable, [w]);
      assert media[..1] == [dev.medium];
      if ok {
        ok := dev.Flush();
        if ok { assert media[..2] == media; }
      }
    }

    /** The record loop and its flush. */
    method WriteRecords(batch: seq<Record>, ghost h: Header) returns (ok: bool)
      requires dev.medium.pending == [] && batch != [] && h.count == recordCount
      modifies dev
      ensures dev.failed == (old(dev.failed) || !ok)
      ensures Ran(old(dev.trace), dev.trace, RecordMedia(old(dev.medium).durable, h, batch))
      ensures ok ==> dev.trace == old(dev.trace) + RecordMedia(old(dev.medium).durable, h, batch)
      ensures ok ==> dev.medium == Medium(RecordsFlushed(old(dev.medium).durable, h, batch), [])
    {
      hide Flushed;
      ghost var media := RecordMedia(dev.medium.durable, h, batch);
      ghost var writes := RecordWrites(batch, recordCount);
      var i := 0;
      while i < |batch|
        invariant 0 <= i <= |batch| && dev.failed == old(dev.failed)
        invariant dev.medium == Medium(old(dev.medium).durable, writes[..i])
        invariant dev.trace == old(dev.trace) + media[..i]
      {
        var rec := batch[i].(sequence := recordCount + i + 1);
        assert writes[..i] + [(Rec(recordCount + i), RecordValue(rec))] == writes[..i + 1];
        ok := dev.Write(Rec(recordCount + i), RecordValue(rec));
        assert media[i] == dev.medium;
        assert media[..i] + [media[i]] == media[..i + 1];
        i := i + 1;
        if !ok { return; }
      }
      assert writes[..i] == writes;
      ok := dev.Flush();
      if ok {
        assert media[i] == dev.medium;
        assert media == media[..i] + [media[i]];
        assert media[..i + 1] == media;
      }
    }

    /**
     append_batch. Whatever the outcome, the media it passes through are a prefix of AppendMedia, so
     AppendAtomic speaks about every crash during the call. After an error the object is abandoned.
     */
    method AppendBatch(batch: seq<Record>) returns (r: Outcome)
      requires Valid()
      modifies this, dev
      ensures dev.failed == (old(dev.failed) || r == IoError)
      ensures r != CorruptJournal && (r == ReadOnly <==> !writable)
      ensures writable && batch != [] ==> (r == Full <==> old(recordCount) + |batch| > capacity)
      ensures r in {ReadOnly, Full} || batch == [] ==> dev.trace == old(dev.trace) && dev.medium == old(dev.medium)
      ensures batch != [] ==> Ran(old(dev.trace), dev.trace, old(AppendMedia(dev.medium.durable, Load(dev.medium.durable).header, batch)))
      ensures r == Ok ==> Valid() && phase == old(phase)
      ensures r == Ok && batch != [] ==> dev.medium.durable == old(Appended(dev.medium.durable, Load(dev.medium.durable).header, batch))
      ensures r == Ok && batch != [] ==>
        dev.trace == old(dev.trace) + old(AppendMedia(dev.medium.durable, Load(dev.medium.durable).header, batch))
      ensures r == Ok ==> Load(dev.medium.durable).records == old(Load(dev.medium.durable).records) + Stamp(batch, old(recordCount))
      ensures r != Ok ==> unchanged(this)
    {
      hide Flushed, AppendMedia, Appended, Load, Settled, Shaped, Stamp, LastTransaction, CommittedCount;
      if !writable { return ReadOnly; }
      if batch == [] { return Ok; }
      CountBound(dev.medium.durable, capacity);
      if recordCount > capacity || |batch| > capacity - recordCount {
        return Full;
      }
      ghost var img := dev.medium.durable;
      var next := Header(id, headerSequence + 1, phase, recordCount + |batch|);
      var ok := WriteBatch(batch, next, Load(img).header);
      if !ok { return IoError; }
      AppendCompletes(img, batch, capacity);
      headerSequence := next.sequence;
      FoldBatch(batch, Load(img).records);
      recordCount := next.count;
      r := Ok;
    }

    /** Records, flush, header, flush. */
    method WriteBatch(batch: seq<Record>, next: Header, ghost h: Header) returns (ok: bool)
      requires dev.medium.pending == [] && batch != []
      requires h.count == recordCount && next == AppendHeader(h, batch)
      modifies dev
      ensures dev.failed == (old(dev.failed) || !ok)
      ensures Ran(old(dev.trace), dev.trace, AppendMedia(old(dev.medium).durable, h, batch))
      ensures ok ==> dev.trace == old(dev.trace) + AppendMedia(old(dev.medium).durable, h, batch)
      ensures ok ==> dev.medium == Medium(Appended(old(dev.medium).durable, h, batch), [])
    {
      hide Flushed, RecordMedia, HeaderMedia, RecordsFlushed;
      ghost var img := dev.medium.durable;
      ghost var tail := HeaderMedia(RecordsFlushed(img, h, batch), next);
      ok := WriteRecords(batch, h);
      ghost var mid := dev.trace;
      RanThen(old(dev.trace), mid, mid, RecordMedia(img, h, batch), tail);
      if ok {
        ok := WriteHeader(next);
        RanThen(old(dev.trace), mid, dev.trace, RecordMedia(img, h, batch), tail);
      }
    }

    /** The counter updates after a successful append. */
    method FoldBatch(batch: seq<Record>, ghost rs: seq<Record>)
      requires lastTransaction == LastTransaction(rs) && committed == CommittedCount(rs)
      modifies this`lastTransaction, this`committed
      ensures lastTransaction == LastTransaction(rs + Stamp(batch, recordCount))
      ensures committed == CommittedCount(rs + Stamp(batch, recordCount))
    {
      hide Stamp;
      assert rs + batch[..0] == rs;
      for i := 0 to |batch|
        invariant lastTransaction == LastTransaction(rs + batch[..i])
        invariant committed == CommittedCount(rs + batch[..i])
      {
        ghost var next := rs + batch[..i + 1];
        assert next[..|next| - 1] == rs + batch[..i];
        lastTransaction := if lastTransaction >= batch[i].transaction then lastTransaction else batch[i].transaction;
        if batch[i].kind == MetadataCommitted { committed := committed + 1; }
      }
      FoldsIgnoreStamp(rs, batch, recordCount, |batch|);
      assert batch[..|batch|] == batch && Stamp(batch, recordCount)[..|batch|] == Stamp(batch, recordCount);
    }

    /** checkpoint: the record first, then a header that changes only the phase. */
    method WriteCheckpoint(newPhase: Phase) returns (r: Outcome)
      requires Valid()
      modifies this, dev
      ensures dev.failed == (old(dev.failed) || r == IoError)
      ensures r != CorruptJournal && (r == ReadOnly <==> !writable)
      ensures writable ==> (r == Full <==> old(recordCount) + 1 > capacity)
      ensures Ran(old(dev.trace), dev.trace, old(OpMedia(dev.medium.durable, CheckpointOp(newPhase))))
      ensures r == Ok ==> Valid() && phase == newPhase
      ensures r == Ok ==> dev.medium.durable == old(Completed(dev.medium.durable, CheckpointOp(newPhase)))
      ensures r != Ok ==> phase == old(phase)
    {
      hide Flushed, Load, AppendMedia, HeaderMedia, Covered, Settled, Appended, Shaped, Stamp, LastTransaction, CommittedCount;
      ghost var img := dev.medium.durable;
      ghost var h := Load(img).header;
      var rec := CheckpointRecord(lastTransaction, newPhase);
      ghost var tail := HeaderMedia(Appended(img, h, [rec]), PhaseHeader(h, rec, newPhase));
      r := AppendBatch([rec]);
      ghost var mid := dev.trace;
      RanThen(old(dev.trace), mid, mid, AppendMedia(img, h, [rec]), tail);
      if r != Ok { return; }
      AppendCompletes(img, [rec], capacity);
      var next := Header(id, headerSequence + 1, newPhase, recordCount);
      var ok := WriteHeader(next);
      RanThen(old(dev.trace), mid, dev.trace, AppendMedia(img, h, [rec]), tail);
      if !ok { return IoError; }
      CheckpointCompletes(img, rec, newPhase, capacity);
      headerSequence := next.sequence;
      phase := newPhase;
    }
  }
}
