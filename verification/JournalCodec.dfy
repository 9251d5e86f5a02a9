/** The byte layout of journal headers and records (src/transaction/journal.cpp). */
module JournalCodec {
  import opened Endian
  import J = Journal

  const HEADER_BYTES: nat := 4096
  const RECORD_BYTES: nat := 128
  const RECORDS_OFFSET: nat := 8192

  const HEADER_MAGIC: seq<byte> := [70, 83, 88, 74, 78, 76, 49, 48]
  const RECORD_MAGIC: u32 := 0x5258_5346

  type Checksum = seq<byte> -> u32

  datatype Decoded<T> = Ok(value: T) | Truncated | BadMagic | BadVersion | BadChecksum | BadPhase | BadType | BadLayout

  /** The inverse of PhaseCode; any other code is refused. */
  function PhaseOf(code: nat): (r: Decoded<J.Phase>)
    ensures forall p: J.Phase :: r == Ok(p) <==> J.PhaseCode(p) == code
    ensures !r.Ok? ==> r == BadPhase
  {
    match code
    case 1 => Ok(J.Prepared) case 2 => Ok(J.Relocating) case 3 => Ok(J.Paused) case 4 => Ok(J.MetadataFinalize)
    case 5 => Ok(J.FilesystemShrunk) case 6 => Ok(J.PartitionPending) case 7 => Ok(J.Complete) case 8 => Ok(J.Failed)
    case 9 => Ok(J.Staged) case 10 => Ok(J.MetadataPaused) case 11 => Ok(J.Compacted)
    case _ => BadPhase
  }

  function TypeCode(k: J.RecordType): (r: nat)
    ensures 1 <= r <= 12
  {
    match k
    case RelocationIntent => 1 case CopyVerified => 2 case MetadataCommitted => 3 case Checkpoint => 4
    case Note => 5 case DestinationReserved => 6 case OwnerSwitched => 7 case SourceReleased => 8
    case MarkedDirty => 9 case MarkedClean => 10 case PartitionIntent => 11 case PartitionCommitted => 12
  }

  /** The inverse of TypeCode; any other code is refused. */
  function TypeOf(code: nat): (r: Decoded<J.RecordType>)
    ensures forall k: J.RecordType :: r == Ok(k) <==> TypeCode(k) == code
    ensures !r.Ok? ==> r == BadType
  {
    match code
    case 1 => Ok(J.RelocationIntent) case 2 => Ok(J.CopyVerified) case 3 => Ok(J.MetadataCommitted) case 4 => Ok(J.Checkpoint)
    case 5 => Ok(J.Note) case 6 => Ok(J.DestinationReserved) case 7 => Ok(J.OwnerSwitched) case 8 => Ok(J.SourceReleased)
    case 9 => Ok(J.MarkedDirty) case 10 => Ok(J.MarkedClean) case 11 => Ok(J.PartitionIntent) case 12 => Ok(J.PartitionCommitted)
    case _ => BadType
  }

  predicate Word64(n: nat) { n < 0x1_0000_0000_0000_0000 }

  predicate Uuid(u: seq<nat>) { |u| == 16 && forall i :: 0 <= i < 16 ==> u[i] < 256 }

  /** The header's fields fit their widths. */
  predicate HeaderFits(h: J.Header) {
    && Uuid(h.id.operation) && Uuid(h.id.filesystem) && Word64(h.id.deviceSize) && Word64(h.id.targetSize)
    && Word64(h.sequence) && Word64(h.count)
  }

  predicate RecordFits(r: J.Record) {
    && Word64(r.sequence) && Word64(r.transaction) && Word64(r.source) && Word64(r.destination) && Word64(r.blocks)
    && Word64(r.inode) && Word64(r.aux) && r.crc < 0x1_0000_0000 && r.state < 0x1_0000_0000
  }

  function UuidBytes(u: seq<nat>): (r: seq<byte>)
    requires Uuid(u)
    ensures |r| == 16 && r == u
  {
    seq(16, i requires 0 <= i < 16 => u[i])
  }

  // ---------- headers ----------

  function HeaderFields(h: J.Header): seq<Field>
    requires HeaderFits(h)
  {
    [Field(0, HEADER_MAGIC), Field(8, LE(1, 4)), Field(12, LE(HEADER_BYTES, 4)), Field(16, LE(h.sequence, 8)),
     Field(24, UuidBytes(h.id.operation)), Field(40, UuidBytes(h.id.filesystem)), Field(56, LE(h.id.deviceSize, 8)),
     Field(64, LE(h.id.targetSize, 8)), Field(72, LE(J.PhaseCode(h.phase), 4)), Field(80, LE(h.count, 8)),
     Field(88, LE(RECORD_BYTES, 8)), Field(96, LE(RECORDS_OFFSET, 8)), Field(4092, LE(0, 4))]
  }

  lemma HeaderFieldsFit(h: J.Header)
    requires HeaderFits(h)
    ensures Inside(HEADER_BYTES, HeaderFields(h)) && Ascending(HeaderFields(h))
  {
    hide Ascending, LE, UuidBytes, TypeCode;
    SteppingAscends(HeaderFields(h));
  }

  function HeaderBody(h: J.Header): (r: seq<byte>)
    requires HeaderFits(h)
    ensures |r| == HEADER_BYTES
  {
    HeaderFieldsFit(h);
    PutAll(Zeros(HEADER_BYTES), HeaderFields(h))
  }

  /** encode_header. */
  function EncodeHeader(h: J.Header, sum: Checksum): (r: seq<byte>)
    requires HeaderFits(h)
    ensures |r| == HEADER_BYTES
  {
    var body := HeaderBody(h);
    Put(body, Field(4092, LE(sum(body[..4092]), 4)))
  }

  /** decode_header. */
  function DecodeHeader(b: seq<byte>, sum: Checksum): (r: Decoded<J.Header>)
    ensures r.Ok? ==> |b| >= HEADER_BYTES && b[..8] == HEADER_MAGIC && Num32(b[72..76]) == J.PhaseCode(r.value.phase)
  {
    if |b| < HEADER_BYTES then Truncated
    else if b[..8] != HEADER_MAGIC then BadMagic
    else if Num32(b[8..12]) != 1 || Num32(b[12..16]) != HEADER_BYTES then BadVersion
    else if Num32(b[4092..4096]) != sum(Put(b, Field(4092, LE(0, 4)))[..4092]) then BadChecksum
    else
      match PhaseOf(Num32(b[72..76]))
      case Ok(phase) =>
        if Num64(b[88..96]) != RECORD_BYTES || Num64(b[96..104]) != RECORDS_OFFSET then BadLayout
        else Ok(J.Header(J.Identity(b[24..40], b[40..56], Num64(b[56..64]), Num64(b[64..72])), Num64(b[16..24]), phase, Num64(b[80..88])))
      case _ => BadPhase
  }

  lemma HeaderSlices(h: J.Header)
    requires HeaderFits(h)
    ensures var b := HeaderBody(h);
      && b[..8] == HEADER_MAGIC && b[8..12] == LE(1, 4) && b[12..16] == LE(HEADER_BYTES, 4) && b[16..24] == LE(h.sequence, 8)
      && b[24..40] == UuidBytes(h.id.operation) && b[40..56] == UuidBytes(h.id.filesystem)
      && b[56..64] == LE(h.id.deviceSize, 8) && b[64..72] == LE(h.id.targetSize, 8) && b[72..76] == LE(J.PhaseCode(h.phase), 4)
      && b[80..88] == LE(h.count, 8) && b[88..96] == LE(RECORD_BYTES, 8) && b[96..104] == LE(RECORDS_OFFSET, 8)
      && b[4092..4096] == LE(0, 4)
  {
    hide PutAll, LE, UuidBytes;
    var fs := HeaderFields(h);
    HeaderFieldsFit(h);
    var z := Zeros(HEADER_BYTES);
    hide Inside, Ascending;
    PutAllReads(z, fs, 0);
    PutAllReads(z, fs, 1);
    PutAllReads(z, fs, 2);
    PutAllReads(z, fs, 3);
    PutAllReads(z, fs, 4);
    PutAllReads(z, fs, 5);
    PutAllReads(z, fs, 6);
    PutAllReads(z, fs, 7);
    PutAllReads(z, fs, 8);
    PutAllReads(z, fs, 9);
    PutAllReads(z, fs, 10);
    PutAllReads(z, fs, 11);
    PutAllReads(z, fs, 12);
  }

  /** Whatever header is written is the header read back, for any checksum. */
  lemma HeaderRoundTrip(h: J.Header, sum: Checksum)
    requires HeaderFits(h)
    ensures DecodeHeader(EncodeHeader(h, sum), sum) == Ok(h)
  {
    hide LE, Put, HeaderBody;
    var body := HeaderBody(h);
    HeaderSlices(h);
    Sealed(body, 4092, sum(body[..4092]));
    var e := EncodeHeader(h, sum);
    assert e[0..8] == body[0..8] && e[8..12] == body[8..12] && e[12..16] == body[12..16] && e[16..24] == body[16..24];
    assert e[24..40] == body[24..40] && e[40..56] == body[40..56] && e[56..64] == body[56..64] && e[64..72] == body[64..72];
    assert e[72..76] == body[72..76] && e[80..88] == body[80..88] && e[88..96] == body[88..96] && e[96..104] == body[96..104];
    FieldReads(1, h.sequence);
    FieldReads(HEADER_BYTES, h.id.deviceSize);
    FieldReads(J.PhaseCode(h.phase), h.id.targetSize);
    FieldReads(0, h.count);
    FieldReads(0, RECORD_BYTES);
    FieldReads(0, RECORDS_OFFSET);
  }

  // ---------- records ----------

  function RecordFields(r: J.Record): seq<Field>
    requires RecordFits(r)
  {
    [Field(0, LE(RECORD_MAGIC, 4)), Field(4, LE(1, 2)), Field(6, LE(TypeCode(r.kind), 2)), Field(8, LE(r.sequence, 8)),
     Field(16, LE(r.transaction, 8)), Field(24, LE(r.source, 8)), Field(32, LE(r.destination, 8)), Field(40, LE(r.blocks, 8)),
     Field(48, LE(r.inode, 8)), Field(56, LE(r.aux, 8)), Field(64, LE(r.crc, 4)), Field(68, LE(r.state, 4)),
     Field(124, LE(0, 4))]
  }

  lemma RecordFieldsFit(r: J.Record)
    requires RecordFits(r)
    ensures Inside(RECORD_BYTES, RecordFields(r)) && Ascending(RecordFields(r))
  {
    hide Ascending, LE, UuidBytes, TypeCode;
    SteppingAscends(RecordFields(r));
  }

  function RecordBody(r: J.Record): (b: seq<byte>)
    requires RecordFits(r)
    ensures |b| == RECORD_BYTES
  {
    RecordFieldsFit(r);
    PutAll(Zeros(RECORD_BYTES), RecordFields(r))
  }

  /** encode_record. */
  function EncodeRecord(r: J.Record, sum: Checksum): (b: seq<byte>)
    requires RecordFits(r)
    ensures |b| == RECORD_BYTES
  {
    var body := RecordBody(r);
    Put(body, Field(124, LE(sum(body[..124]), 4)))
  }

  /** decode_record. */
  function DecodeRecord(b: seq<byte>, sum: Checksum): (r: Decoded<J.Record>)
    ensures r.Ok? ==> |b| >= RECORD_BYTES && Num32(b[0..4]) == RECORD_MAGIC && Num(b[6..8]) == TypeCode(r.value.kind)
  {
    if |b| < RECORD_BYTES then Truncated
    else if Num32(b[0..4]) != RECORD_MAGIC || Num(b[4..6]) != 1 then BadMagic
    else if Num32(b[124..128]) != sum(Put(b, Field(124, LE(0, 4)))[..124]) then BadChecksum
    else
      match TypeOf(Num(b[6..8]))
      case Ok(kind) =>
        Ok(J.Record(kind, Num64(b[8..16]), Num64(b[16..24]), Num64(b[24..32]), Num64(b[32..40]), Num64(b[40..48]),
                    Num64(b[48..56]), Num64(b[56..64]), Num32(b[64..68]), Num32(b[68..72])))
      case _ => BadType
  }

  lemma RecordSlices(r: J.Record)
    requires RecordFits(r)
    ensures var b := RecordBody(r);
      && b[0..4] == LE(RECORD_MAGIC, 4) && b[4..6] == LE(1, 2) && b[6..8] == LE(TypeCode(r.kind), 2)
      && b[8..16] == LE(r.sequence, 8) && b[16..24] == LE(r.transaction, 8) && b[24..32] == LE(r.source, 8)
      && b[32..40] == LE(r.destination, 8) && b[40..48] == LE(r.blocks, 8) && b[48..56] == LE(r.inode, 8)
      && b[56..64] == LE(r.aux, 8) && b[64..68] == LE(r.crc, 4) && b[68..72] == LE(r.state, 4) && b[124..128] == LE(0, 4)
  {
    hide PutAll, LE, TypeCode;
    var fs := RecordFields(r);
    RecordFieldsFit(r);
    var z := Zeros(RECORD_BYTES);
    hide Inside, Ascending;
    PutAllReads(z, fs, 0);
    PutAllReads(z, fs, 1);
    PutAllReads(z, fs, 2);
    PutAllReads(z, fs, 3);
    PutAllReads(z, fs, 4);
    PutAllReads(z, fs, 5);
    PutAllReads(z, fs, 6);
    PutAllReads(z, fs, 7);
    PutAllReads(z, fs, 8);
    PutAllReads(z, fs, 9);
    PutAllReads(z, fs, 10);
    PutAllReads(z, fs, 11);
    PutAllReads(z, fs, 12);
  }

  lemma ShortField(v: nat)
    requires v < 0x1_0000
    ensures Num(LE(v, 2)) == v
  {
    assert Pow256(2) == 256 * Pow256(1) && Pow256(1) == 256 * Pow256(0);
    NumLE(v, 2);
  }

  /** Whatever record is written is the record read back, for any checksum. */
  lemma RecordRoundTrip(r: J.Record, sum: Checksum)
    requires RecordFits(r)
    ensures DecodeRecord(EncodeRecord(r, sum), sum) == Ok(r)
  {
    hide LE, Put, RecordBody;
    var body := RecordBody(r);
    RecordSlices(r);
    Sealed(body, 124, sum(body[..124]));
    var e := EncodeRecord(r, sum);
    assert e[0..4] == body[0..4] && e[4..6] == body[4..6] && e[6..8] == body[6..8] && e[8..16] == body[8..16];
    assert e[16..24] == body[16..24] && e[24..32] == body[24..32] && e[32..40] == body[32..40] && e[40..48] == body[40..48];
    assert e[48..56] == body[48..56] && e[56..64] == body[56..64] && e[64..68] == body[64..68] && e[68..72] == body[68..72];
    ShortField(1);
    ShortField(TypeCode(r.kind));
    FieldReads(RECORD_MAGIC, r.sequence);
    FieldReads(r.crc, r.transaction);
    FieldReads(r.state, r.source);
    FieldReads(0, r.destination);
    FieldReads(0, r.blocks);
    FieldReads(0, r.inode);
    FieldReads(0, r.aux);
  }

  // ---------- what is on disk ----------

  /** The bytes of a record, field by field, unused bytes zero. */
  predicate RecordLayout(b: seq<byte>, r: J.Record) {
    && |b| == 128
    && b[0..4] == LE(0x5258_5346, 4) && b[4..6] == LE(1, 2) && b[6..8] == LE(TypeCode(r.kind), 2)
    && b[8..16] == LE(r.sequence, 8) && b[16..24] == LE(r.transaction, 8) && b[24..32] == LE(r.source, 8)
    && b[32..40] == LE(r.destination, 8) && b[40..48] == LE(r.blocks, 8) && b[48..56] == LE(r.inode, 8)
    && b[56..64] == LE(r.aux, 8) && b[64..68] == LE(r.crc, 4) && b[68..72] == LE(r.state, 4)
    && b[72..124] == Zeros(52)
  }

  /** The bytes of a header. */
  predicate HeaderLayout(b: seq<byte>, h: J.Header) {
    && |b| == 4096
    && b[..8] == [70, 83, 88, 74, 78, 76, 49, 48] && b[8..12] == LE(1, 4) && b[12..16] == LE(4096, 4) && b[16..24] == LE(h.sequence, 8)
    && b[24..40] == h.id.operation && b[40..56] == h.id.filesystem
    && b[56..64] == LE(h.id.deviceSize, 8) && b[64..72] == LE(h.id.targetSize, 8) && b[72..76] == LE(J.PhaseCode(h.phase), 4)
    && b[76..80] == Zeros(4) && b[80..88] == LE(h.count, 8) && b[88..96] == LE(128, 8) && b[96..104] == LE(8192, 8)
    && b[104..4092] == Zeros(3988)
  }

  /** Each field of an encoded record is at its offset, and the checksum covers every byte before it. */
  lemma EncodedRecord(r: J.Record, sum: Checksum)
    requires RecordFits(r)
    ensures var b := EncodeRecord(r, sum); RecordLayout(b, r) && b[124..128] == LE(sum(b[..124]), 4)
  {
    var z, fs := Zeros(RECORD_BYTES), RecordFields(r);
    RecordFieldsFit(r);
    assert PutAll(z, fs)[72..124] == Zeros(52) by {
      PutAllKeeps(z, fs, 72, 52);
      assert z[72..124] == Zeros(52);
    }
    hide LE, Put, RecordBody, RecordFields;
    var body := RecordBody(r);
    RecordSlices(r);
    var c := sum(body[..124]);
    Sealed(body, 124, c);
    SealedAfter(body, 124, c);
    var b := EncodeRecord(r, sum);
    assert body[72..124] == Zeros(52) by { BodyOf(r); }
    assert b[0..124] == body[0..124];
    forall x, y | 0 <= x <= y <= 124 ensures b[x..y] == body[x..y] { }
  }

  lemma BodyOf(r: J.Record)
    requires RecordFits(r)
    ensures Inside(RECORD_BYTES, RecordFields(r)) && RecordBody(r) == PutAll(Zeros(RECORD_BYTES), RecordFields(r))
  {
    RecordFieldsFit(r);
  }

  lemma EncodedHeader(h: J.Header, sum: Checksum)
    requires HeaderFits(h)
    ensures var b := EncodeHeader(h, sum); HeaderLayout(b, h) && b[4092..4096] == LE(sum(b[..4092]), 4)
  {
    HeaderUnused(h);
    hide LE, Put, HeaderBody, UuidBytes;
    var body := HeaderBody(h);
    HeaderSlices(h);
    var c := sum(body[..4092]);
    Sealed(body, 4092, c);
    SealedAfter(body, 4092, c);
    var b := EncodeHeader(h, sum);
    assert b[0..4092] == body[0..4092];
    forall x, y | 0 <= x <= y <= 4092 ensures b[x..y] == body[x..y] { }
  }

  lemma HeaderUnused(h: J.Header)
    requires HeaderFits(h)
    ensures HeaderBody(h)[76..80] == Zeros(4) && HeaderBody(h)[104..4092] == Zeros(3988)
  {
    var z, fs := Zeros(HEADER_BYTES), HeaderFields(h);
    HeaderFieldsFit(h);
    hide LE, UuidBytes;
    PutAllKeeps(z, fs, 76, 4);
    PutAllKeeps(z, fs, 104, 3988);
    assert z[76..80] == Zeros(4) && z[104..4092] == Zeros(3988);
  }

  /** The fields a reader finds at their offsets. */
  predicate RecordAt(b: seq<byte>, r: J.Record) {
    && |b| >= 128 && Num32(b[0..4]) == 0x5258_5346 && Num(b[4..6]) == 1 && Num(b[6..8]) == TypeCode(r.kind)
    && Num64(b[8..16]) == r.sequence && Num64(b[16..24]) == r.transaction && Num64(b[24..32]) == r.source
    && Num64(b[32..40]) == r.destination && Num64(b[40..48]) == r.blocks && Num64(b[48..56]) == r.inode
    && Num64(b[56..64]) == r.aux && Num32(b[64..68]) == r.crc && Num32(b[68..72]) == r.state
  }

  predicate HeaderAt(b: seq<byte>, h: J.Header) {
    && |b| >= 4096 && b[..8] == [70, 83, 88, 74, 78, 76, 49, 48] && Num32(b[8..12]) == 1 && Num32(b[12..16]) == 4096
    && Num64(b[16..24]) == h.sequence && b[24..40] == h.id.operation && b[40..56] == h.id.filesystem
    && Num64(b[56..64]) == h.id.deviceSize && Num64(b[64..72]) == h.id.targetSize && Num32(b[72..76]) == J.PhaseCode(h.phase)
    && Num64(b[80..88]) == h.count && Num64(b[88..96]) == 128 && Num64(b[96..104]) == 8192
  }

  /** Bytes decode to a record exactly when its fields are there and the checksum of everything before it is stored. */
  lemma DecodedRecord(b: seq<byte>, sum: Checksum, r: J.Record)
    ensures DecodeRecord(b, sum) == Ok(r) <==> RecordAt(b, r) && Num32(b[124..128]) == sum(b[..124])
  {
    hide Num32, Num64, Num, LE;
    if |b| >= 128 { assert Put(b, Field(124, LE(0, 4)))[..124] == b[..124]; }
  }

  lemma DecodedHeader(b: seq<byte>, sum: Checksum, h: J.Header)
    ensures DecodeHeader(b, sum) == Ok(h) <==> HeaderAt(b, h) && Num32(b[4092..4096]) == sum(b[..4092])
  {
    hide Num32, Num64, Num, LE;
    if |b| >= 4096 { assert Put(b, Field(4092, LE(0, 4)))[..4092] == b[..4092]; }
  }

  /** The numbers of phases and record types. */
  lemma PublishedCodes()
    ensures J.PhaseCode(J.Prepared) == 1 && J.PhaseCode(J.Relocating) == 2 && J.PhaseCode(J.Paused) == 3 && J.PhaseCode(J.MetadataFinalize) == 4
    ensures J.PhaseCode(J.FilesystemShrunk) == 5 && J.PhaseCode(J.PartitionPending) == 6 && J.PhaseCode(J.Complete) == 7 && J.PhaseCode(J.Failed) == 8
    ensures J.PhaseCode(J.Staged) == 9 && J.PhaseCode(J.MetadataPaused) == 10 && J.PhaseCode(J.Compacted) == 11
    ensures TypeCode(J.RelocationIntent) == 1 && TypeCode(J.CopyVerified) == 2 && TypeCode(J.MetadataCommitted) == 3 && TypeCode(J.Checkpoint) == 4
    ensures TypeCode(J.Note) == 5 && TypeCode(J.DestinationReserved) == 6 && TypeCode(J.OwnerSwitched) == 7 && TypeCode(J.SourceReleased) == 8
    ensures TypeCode(J.MarkedDirty) == 9 && TypeCode(J.MarkedClean) == 10 && TypeCode(J.PartitionIntent) == 11 && TypeCode(J.PartitionCommitted) == 12
  {
  }
}
