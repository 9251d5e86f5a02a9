/** The header, record and footer of the FSXIMG1 format (src/ops/image.cpp, docs/IMAGE_FORMAT.md). */
module ImageCodec {
  import opened Arithmetic
  import opened Endian

  const HEADER_SIZE: nat := 4096
  const RECORD_SIZE: nat := 48
  const FOOTER_SIZE: nat := 4096

  const HEADER_MAGIC: seq<byte> := [70, 83, 88, 73, 77, 71, 49, 0]
  const RECORD_MAGIC: seq<byte> := [70, 83, 88, 67, 72, 78, 49, 0]
  const FOOTER_MAGIC: seq<byte> := [70, 83, 88, 69, 78, 68, 49, 0]

  /** CRC-32C in the program; the format works with any 32-bit checksum. */
  type Checksum = seq<byte> -> u32

  datatype Problem =
    | NotAnImage | BadVersion | BadChecksum | UnknownFlags | BadGeometry | BadChunkCount | BadRecord | OutOfOrder
    | BadLength | BadZeroChunk | BadStoredLength | BadFooter | BadTotals | Incomplete | Truncated | BadPayload
    | PayloadOverflow | BadAccounting | TrailingData | Cancelled | TargetTooSmall | Mismatch | BadOption | EmptySource | IoError

  datatype Result<T> = Ok(value: T) | Err(why: Problem)

  /** The geometry of an image. */
  datatype Shape = Shape(sourceBytes: u64, sector: u32, chunkBytes: u32, chunks: u64)

  datatype Totals = Totals(dataChunks: u64, zeroChunks: u64, payloadBytes: u64)

  // ---------- header ----------

  function HeaderFields(s: Shape, flags: u32): seq<Field> {
    [Field(0, HEADER_MAGIC), Field(8, LE(1, 4)), Field(12, LE(HEADER_SIZE, 4)), Field(16, LE(s.sourceBytes, 8)),
     Field(24, LE(s.sector, 4)), Field(28, LE(s.chunkBytes, 4)), Field(32, LE(s.chunks, 8)), Field(40, LE(flags, 4)),
     Field(44, LE(0, 4))]
  }

  lemma HeaderFieldsFit(s: Shape, flags: u32)
    ensures Inside(HEADER_SIZE, HeaderFields(s, flags)) && Ascending(HeaderFields(s, flags))
  {
    hide Ascending, LE;
    SteppingAscends(HeaderFields(s, flags));
  }

  function HeaderBody(s: Shape, flags: u32): (r: seq<byte>)
    ensures |r| == HEADER_SIZE
  {
    HeaderFieldsFit(s, flags);
    PutAll(Zeros(HEADER_SIZE), HeaderFields(s, flags))
  }

  function HeaderFlags(complete: bool): u32 { if complete then 1 else 0 }

  /** make_header. */
  function MakeHeader(s: Shape, complete: bool, sum: Checksum): (r: seq<byte>)
    ensures |r| == HEADER_SIZE
  {
    var body := HeaderBody(s, HeaderFlags(complete));
    Put(body, Field(44, LE(sum(body), 4)))
  }

  predicate PowerOfTwo(n: u32) {
    n != 0 && (n as bv32) & ((n - 1) as bv32) == 0
  }

  /** The sector sizes a reader accepts. */
  predicate SectorOk(n: u32) { PowerOfTwo(n) && 512 <= n <= 65536 }

  function CeilDiv(n: nat, d: nat): nat
    requires d > 0
  {
    n / d + if n % d != 0 then 1 else 0
  }

  predicate ShapeOk(s: Shape) {
    && s.sourceBytes != 0 && SectorOk(s.sector)
    && 64 * 1024 <= s.chunkBytes <= 64 * 1024 * 1024 && s.chunkBytes % s.sector == 0
  }

  datatype Header = Header(shape: Shape, complete: bool)

  /** parse_header. */
  function ParseHeader(h: seq<byte>, sum: Checksum): Result<Header> {
    if |h| != HEADER_SIZE || h[..8] != HEADER_MAGIC then Err(NotAnImage)
    else if Num32(h[8..12]) != 1 || Num32(h[12..16]) != HEADER_SIZE then Err(BadVersion)
    else if sum(Put(h, Field(44, LE(0, 4)))) != Num32(h[44..48]) then Err(BadChecksum)
    else
      var s := Shape(Num64(h[16..24]), Num32(h[24..28]), Num32(h[28..32]), Num64(h[32..40]));
      var flags := Num32(h[40..44]);
      if flags > 1 then Err(UnknownFlags)
      else if !ShapeOk(s) then Err(BadGeometry)
      else if s.chunks != CeilDiv(s.sourceBytes, s.chunkBytes) then Err(BadChunkCount)
      else Ok(Header(s, flags == 1))
  }

  lemma HeaderSlices(s: Shape, flags: u32)
    ensures var b := HeaderBody(s, flags);
      && b[..8] == HEADER_MAGIC && b[8..12] == LE(1, 4) && b[12..16] == LE(HEADER_SIZE, 4)
      && b[16..24] == LE(s.sourceBytes, 8) && b[24..28] == LE(s.sector, 4) && b[28..32] == LE(s.chunkBytes, 4)
      && b[32..40] == LE(s.chunks, 8) && b[40..44] == LE(flags, 4) && b[44..48] == LE(0, 4)
  {
    hide PutAll, LE;
    var fs := HeaderFields(s, flags);
    HeaderFieldsFit(s, flags);
    var z := Zeros(HEADER_SIZE);
    hide Inside, Ascending;
    PutAllReads(z, fs, 0);
    PutAllReads(z, fs, 1);
    PutAllReads(z, fs, 2);
    PutAllReads(z, fs, 3);
    PutAllReads(z, fs, 4);
    PutAllReads(z, fs, 5);
    PutAllReads(z, fs, 6);
    PutAllReads(z, fs, 7);
    PutAllReads(z, fs, 8);
  }

  /** A header reads back as it was made, and is refused exactly for its geometry or chunk count. */
  lemma HeaderRoundTrip(s: Shape, complete: bool, sum: Checksum)
    ensures ParseHeader(MakeHeader(s, complete, sum), sum) ==
      if !ShapeOk(s) then Err(BadGeometry)
      else if s.chunks != CeilDiv(s.sourceBytes, s.chunkBytes) then Err(BadChunkCount)
      else Ok(Header(s, complete))
  {
    hide LE, Put, HeaderBody, ShapeOk;
    var flags := HeaderFlags(complete);
    var body := HeaderBody(s, flags);
    HeaderSlices(s, flags);
    Sealed(body, 44, sum(body));
    var h := MakeHeader(s, complete, sum);
    assert h[0..8] == body[0..8] && h[8..12] == body[8..12] && h[12..16] == body[12..16];
    assert h[16..24] == body[16..24] && h[24..28] == body[24..28] && h[28..32] == body[28..32];
    assert h[32..40] == body[32..40] && h[40..44] == body[40..44];
    FieldReads(1, s.sourceBytes);
    FieldReads(HEADER_SIZE, s.chunks);
    FieldReads(s.sector, 0);
    FieldReads(s.chunkBytes, 0);
    FieldReads(flags, 0);
  }

  // ---------- record ----------

  datatype Record = Record(index: u64, offset: u64, length: u32, stored: u32, flags: u32, payloadSum: u32)

  function RecordFields(r: Record): seq<Field> {
    [Field(0, RECORD_MAGIC), Field(8, LE(r.index, 8)), Field(16, LE(r.offset, 8)), Field(24, LE(r.length, 4)),
     Field(28, LE(r.stored, 4)), Field(32, LE(r.flags, 4)), Field(36, LE(r.payloadSum, 4)), Field(40, LE(0, 4))]
  }

  lemma RecordFieldsFit(r: Record)
    ensures Inside(RECORD_SIZE, RecordFields(r)) && Ascending(RecordFields(r))
  {
    hide Ascending, LE;
    SteppingAscends(RecordFields(r));
  }

  function RecordBody(r: Record): (b: seq<byte>)
    ensures |b| == RECORD_SIZE
  {
    RecordFieldsFit(r);
    PutAll(Zeros(RECORD_SIZE), RecordFields(r))
  }

  /** make_record. */
  function MakeRecord(r: Record, sum: Checksum): (b: seq<byte>)
    ensures |b| == RECORD_SIZE
  {
    var body := RecordBody(r);
    Put(body, Field(40, LE(sum(body), 4)))
  }

  /** The decoding half of parse_record. */
  function DecodeRecord(b: seq<byte>, sum: Checksum): Result<Record> {
    if |b| != RECORD_SIZE || b[..8] != RECORD_MAGIC then Err(BadRecord)
    else if sum(Put(b, Field(40, LE(0, 4)))) != Num32(b[40..44]) then Err(BadChecksum)
    else Ok(Record(Num64(b[8..16]), Num64(b[16..24]), Num32(b[24..28]), Num32(b[28..32]), Num32(b[32..36]), Num32(b[36..40])))
  }

  function Min(a: nat, b: nat): nat { if a < b then a else b }

  /** The checks of parse_record against the position expected. */
  function CheckRecord(r: Record, s: Shape, index: nat): Result<Record>
    requires s.chunkBytes > 0
  {
    if index > MAX64 / s.chunkBytes then Err(OutOfOrder)
    else if r.index != index || r.offset != index * s.chunkBytes || r.offset >= s.sourceBytes then Err(OutOfOrder)
    else if r.length != Min(s.chunkBytes, s.sourceBytes - r.offset) || r.length == 0 then Err(BadLength)
    else if r.flags > 1 then Err(UnknownFlags)
    else if r.flags == 1 && (r.stored != 0 || r.payloadSum != 0) then Err(BadZeroChunk)
    else if r.flags == 0 && r.stored != r.length then Err(BadStoredLength)
    else Ok(r)
  }

  function ParseRecord(b: seq<byte>, s: Shape, index: nat, sum: Checksum): Result<Record>
    requires s.chunkBytes > 0
  {
    match DecodeRecord(b, sum)
    case Ok(r) => CheckRecord(r, s, index)
    case Err(e) => Err(e)
  }

  lemma RecordSlices(r: Record)
    ensures var b := RecordBody(r);
      && b[..8] == RECORD_MAGIC && b[8..16] == LE(r.index, 8) && b[16..24] == LE(r.offset, 8)
      && b[24..28] == LE(r.length, 4) && b[28..32] == LE(r.stored, 4) && b[32..36] == LE(r.flags, 4)
      && b[36..40] == LE(r.payloadSum, 4) && b[40..44] == LE(0, 4)
  {
    hide PutAll, LE;
    var fs := RecordFields(r);
    RecordFieldsFit(r);
    var z := Zeros(RECORD_SIZE);
    hide Inside, Ascending;
    PutAllReads(z, fs, 0);
    PutAllReads(z, fs, 1);
    PutAllReads(z, fs, 2);
    PutAllReads(z, fs, 3);
    PutAllReads(z, fs, 4);
    PutAllReads(z, fs, 5);
    PutAllReads(z, fs, 6);
    PutAllReads(z, fs, 7);
  }

  lemma RecordRoundTrip(r: Record, sum: Checksum)
    ensures DecodeRecord(MakeRecord(r, sum), sum) == Ok(r)
  {
    hide LE, Put, RecordBody;
    var body := RecordBody(r);
    RecordSlices(r);
    Sealed(body, 40, sum(body));
    var h := MakeRecord(r, sum);
    assert h[0..8] == body[0..8] && h[8..16] == body[8..16] && h[16..24] == body[16..24] && h[24..28] == body[24..28];
    assert h[28..32] == body[28..32] && h[32..36] == body[32..36] && h[36..40] == body[36..40];
    FieldReads(r.length, r.index);
    FieldReads(r.stored, r.offset);
    FieldReads(r.flags, 0);
    FieldReads(r.payloadSum, 0);
  }

  // ---------- footer ----------

  function FooterFields(chunks: u64, t: Totals): seq<Field> {
    [Field(0, FOOTER_MAGIC), Field(8, LE(chunks, 8)), Field(16, LE(t.dataChunks, 8)), Field(24, LE(t.zeroChunks, 8)),
     Field(32, LE(t.payloadBytes, 8)), Field(40, LE(0, 4))]
  }

  lemma FooterFieldsFit(chunks: u64, t: Totals)
    ensures Inside(FOOTER_SIZE, FooterFields(chunks, t)) && Ascending(FooterFields(chunks, t))
  {
  }

  function FooterBody(chunks: u64, t: Totals): (b: seq<byte>)
    ensures |b| == FOOTER_SIZE
  {
    FooterFieldsFit(chunks, t);
    PutAll(Zeros(FOOTER_SIZE), FooterFields(chunks, t))
  }

  /** make_footer. */
  function MakeFooter(chunks: u64, t: Totals, sum: Checksum): (b: seq<byte>)
    ensures |b| == FOOTER_SIZE
  {
    var body := FooterBody(chunks, t);
    Put(body, Field(40, LE(sum(body), 4)))
  }

  /** parse_footer. */
  function ParseFooter(b: seq<byte>, chunks: u64, sum: Checksum): Result<Totals> {
    if |b| != FOOTER_SIZE || b[..8] != FOOTER_MAGIC then Err(BadFooter)
    else if sum(Put(b, Field(40, LE(0, 4)))) != Num32(b[40..44]) then Err(BadChecksum)
    else if Num64(b[8..16]) != chunks then Err(BadChunkCount)
    else
      var t := Totals(Num64(b[16..24]), Num64(b[24..32]), Num64(b[32..40]));
      if t.dataChunks > chunks || t.zeroChunks != chunks - t.dataChunks then Err(BadTotals) else Ok(t)
  }

  lemma FooterSlices(chunks: u64, t: Totals)
    ensures var b := FooterBody(chunks, t);
      && b[..8] == FOOTER_MAGIC && b[8..16] == LE(chunks, 8) && b[16..24] == LE(t.dataChunks, 8)
      && b[24..32] == LE(t.zeroChunks, 8) && b[32..40] == LE(t.payloadBytes, 8) && b[40..44] == LE(0, 4)
  {
    hide PutAll, LE;
    var fs := FooterFields(chunks, t);
    FooterFieldsFit(chunks, t);
    var z := Zeros(FOOTER_SIZE);
    hide Inside, Ascending;
    PutAllReads(z, fs, 0);
    PutAllReads(z, fs, 1);
    PutAllReads(z, fs, 2);
    PutAllReads(z, fs, 3);
    PutAllReads(z, fs, 4);
    PutAllReads(z, fs, 5);
  }

  /** A footer reads back, and is refused exactly when its chunk totals do not add up. */
  lemma FooterRoundTrip(chunks: u64, t: Totals, sum: Checksum)
    ensures ParseFooter(MakeFooter(chunks, t, sum), chunks, sum)
      == if t.dataChunks + t.zeroChunks == chunks then Ok(t) else Err(BadTotals)
  {
    hide LE, Put, FooterBody;
    var body := FooterBody(chunks, t);
    FooterSlices(chunks, t);
    Sealed(body, 40, sum(body));
    var h := MakeFooter(chunks, t, sum);
    assert h[0..8] == body[0..8] && h[8..16] == body[8..16] && h[16..24] == body[16..24];
    assert h[24..32] == body[24..32] && h[32..40] == body[32..40];
    FieldReads(0, chunks);
    FieldReads(0, t.dataChunks);
    FieldReads(0, t.zeroChunks);
    FieldReads(0, t.payloadBytes);
  }

  // ---------- what is in the file ----------

  /** The bytes of a header, field by field, unused bytes zero. */
  predicate HeaderLayout(b: seq<byte>, s: Shape, complete: bool) {
    && |b| == 4096
    && b[..8] == [70, 83, 88, 73, 77, 71, 49, 0] && b[8..12] == LE(1, 4) && b[12..16] == LE(4096, 4)
    && b[16..24] == LE(s.sourceBytes, 8) && b[24..28] == LE(s.sector, 4) && b[28..32] == LE(s.chunkBytes, 4)
    && b[32..40] == LE(s.chunks, 8) && b[40..44] == LE(if complete then 1 else 0, 4) && b[48..] == Zeros(4048)
  }

  predicate RecordLayout(b: seq<byte>, r: Record) {
    && |b| == 48
    && b[..8] == [70, 83, 88, 67, 72, 78, 49, 0] && b[8..16] == LE(r.index, 8) && b[16..24] == LE(r.offset, 8)
    && b[24..28] == LE(r.length, 4) && b[28..32] == LE(r.stored, 4) && b[32..36] == LE(r.flags, 4)
    && b[36..40] == LE(r.payloadSum, 4) && b[44..] == Zeros(4)
  }

  predicate FooterLayout(b: seq<byte>, chunks: u64, t: Totals) {
    && |b| == 4096
    && b[..8] == [70, 83, 88, 69, 78, 68, 49, 0] && b[8..16] == LE(chunks, 8) && b[16..24] == LE(t.dataChunks, 8)
    && b[24..32] == LE(t.zeroChunks, 8) && b[32..40] == LE(t.payloadBytes, 8) && b[44..] == Zeros(4052)
  }

  lemma HeaderUnused(s: Shape, flags: u32)
    ensures HeaderBody(s, flags)[48..] == Zeros(4048)
  {
    var z, fs := Zeros(HEADER_SIZE), HeaderFields(s, flags);
    HeaderFieldsFit(s, flags);
    hide LE;
    PutAllKeeps(z, fs, 48, 4048);
    assert z[48..4096] == Zeros(4048);
  }

  lemma RecordUnused(r: Record)
    ensures RecordBody(r)[44..] == Zeros(4)
  {
    var z, fs := Zeros(RECORD_SIZE), RecordFields(r);
    RecordFieldsFit(r);
    hide LE;
    PutAllKeeps(z, fs, 44, 4);
    assert z[44..48] == Zeros(4);
  }

  lemma FooterUnused(chunks: u64, t: Totals)
    ensures FooterBody(chunks, t)[44..] == Zeros(4052)
  {
    var z, fs := Zeros(FOOTER_SIZE), FooterFields(chunks, t);
    FooterFieldsFit(chunks, t);
    hide LE;
    PutAllKeeps(z, fs, 44, 4052);
    assert z[44..4096] == Zeros(4052);
  }

  /** Each field of a made header is at its offset; its checksum is that of the bytes with the checksum cleared. */
  lemma MadeHeader(s: Shape, complete: bool, sum: Checksum)
    ensures var b := MakeHeader(s, complete, sum); HeaderLayout(b, s, complete) && b[44..48] == LE(sum(Cleared(b, 44)), 4)
  {
    hide LE, Put, HeaderBody;
    var body := HeaderBody(s, HeaderFlags(complete));
    HeaderSlices(s, HeaderFlags(complete));
    HeaderUnused(s, HeaderFlags(complete));
    Sealed(body, 44, sum(body));
    SealedAfter(body, 44, sum(body));
    var b := MakeHeader(s, complete, sum);
    ClearedIsPut(b, 44);
    assert b[0..8] == body[0..8] && b[8..12] == body[8..12] && b[12..16] == body[12..16] && b[16..24] == body[16..24];
    assert b[24..28] == body[24..28] && b[28..32] == body[28..32] && b[32..40] == body[32..40] && b[40..44] == body[40..44];
  }

  lemma MadeRecord(r: Record, sum: Checksum)
    ensures var b := MakeRecord(r, sum); RecordLayout(b, r) && b[40..44] == LE(sum(Cleared(b, 40)), 4)
  {
    hide LE, Put, RecordBody;
    var body := RecordBody(r);
    RecordSlices(r);
    RecordUnused(r);
    Sealed(body, 40, sum(body));
    SealedAfter(body, 40, sum(body));
    var b := MakeRecord(r, sum);
    ClearedIsPut(b, 40);
    assert b[0..8] == body[0..8] && b[8..16] == body[8..16] && b[16..24] == body[16..24] && b[24..28] == body[24..28];
    assert b[28..32] == body[28..32] && b[32..36] == body[32..36] && b[36..40] == body[36..40];
  }

  lemma MadeFooter(chunks: u64, t: Totals, sum: Checksum)
    ensures var b := MakeFooter(chunks, t, sum); FooterLayout(b, chunks, t) && b[40..44] == LE(sum(Cleared(b, 40)), 4)
  {
    hide LE, Put, FooterBody;
    var body := FooterBody(chunks, t);
    FooterSlices(chunks, t);
    FooterUnused(chunks, t);
    Sealed(body, 40, sum(body));
    SealedAfter(body, 40, sum(body));
    var b := MakeFooter(chunks, t, sum);
    ClearedIsPut(b, 40);
    assert b[0..8] == body[0..8] && b[8..16] == body[8..16] && b[16..24] == body[16..24];
    assert b[24..32] == body[24..32] && b[32..40] == body[32..40];
  }

  /** Bytes parse to a header exactly when its fields are there, its checksum covers them all, and the geometry is acceptable. */
  lemma ParsedHeader(b: seq<byte>, sum: Checksum, s: Shape, complete: bool)
    ensures ParseHeader(b, sum) == Ok(Header(s, complete)) <==>
      && |b| == 4096 && b[..8] == [70, 83, 88, 73, 77, 71, 49, 0] && Num32(b[8..12]) == 1 && Num32(b[12..16]) == 4096
      && Num32(b[44..48]) == sum(Cleared(b, 44)) && Num32(b[40..44]) == (if complete then 1 else 0)
      && Num64(b[16..24]) == s.sourceBytes && Num32(b[24..28]) == s.sector && Num32(b[28..32]) == s.chunkBytes && Num64(b[32..40]) == s.chunks
      && Acceptable(s)
  {
    hide Num32, Num64, LE, PowerOfTwo, Put;
    if |b| == 4096 { ClearedIsPut(b, 44); }
    if s.chunkBytes > 0 && s.sourceBytes > 0 { Ceiling(s.sourceBytes, s.chunkBytes, s.chunks); }
  }

  /** A nonempty source in whole chunks: a sector size that is a power of two, chunks of whole sectors, as many as are needed. */
  predicate Acceptable(s: Shape) {
    && 0 < s.sourceBytes && 512 <= s.sector <= 65536 && PowerOfTwo(s.sector)
    && 0x1_0000 <= s.chunkBytes <= 0x400_0000 && s.chunkBytes % s.sector == 0
    && s.chunks * s.chunkBytes >= s.sourceBytes && s.sourceBytes > (s.chunks - 1) * s.chunkBytes
  }

  lemma Ceiling(n: nat, d: nat, c: nat)
    requires d > 0 && n > 0
    ensures c == CeilDiv(n, d) <==> c * d >= n && n > (c - 1) * d
  {
    var q, r := n / d, n % d;
    assert n == q * d + r;
    var k := CeilDiv(n, d);
    MulGap(k, c, d);
    MulGap(c, k, d);
    MulGap(c - 1, k, d);
    MulGap(k - 1, c, d);
    MulGap(c - 1, k - 1, d);
    MulGap(k - 1, c - 1, d);
    assert (q + 1) * d == q * d + d;
    assert (q - 1) * d == q * d - d;
  }

  lemma DecodedRecord(b: seq<byte>, sum: Checksum, r: Record)
    ensures DecodeRecord(b, sum) == Ok(r) <==>
      && |b| == 48 && b[..8] == [70, 83, 88, 67, 72, 78, 49, 0] && Num32(b[40..44]) == sum(Cleared(b, 40))
      && Num64(b[8..16]) == r.index && Num64(b[16..24]) == r.offset && Num32(b[24..28]) == r.length && Num32(b[28..32]) == r.stored
      && Num32(b[32..36]) == r.flags && Num32(b[36..40]) == r.payloadSum
  {
    hide Num32, Num64, LE, Put;
    if |b| == 48 { ClearedIsPut(b, 40); }
  }

  lemma ParsedFooter(b: seq<byte>, chunks: u64, sum: Checksum, t: Totals)
    ensures ParseFooter(b, chunks, sum) == Ok(t) <==>
      && |b| == 4096 && b[..8] == [70, 83, 88, 69, 78, 68, 49, 0] && Num32(b[40..44]) == sum(Cleared(b, 40)) && Num64(b[8..16]) == chunks
      && Num64(b[16..24]) == t.dataChunks && Num64(b[24..32]) == t.zeroChunks && Num64(b[32..40]) == t.payloadBytes
      && t.dataChunks + t.zeroChunks == chunks
  {
    hide Num32, Num64, LE, Put;
    if |b| == 4096 { ClearedIsPut(b, 40); }
  }

  /** A record is accepted at its place exactly when it describes that chunk of the source, stored whole or elided. */
  lemma CheckedRecord(r: Record, s: Shape, index: nat)
    requires s.chunkBytes > 0
    ensures CheckRecord(r, s, index) == Ok(r) <==>
      && r.index == index && r.offset == index * s.chunkBytes && r.offset < s.sourceBytes
      && r.length == (if s.chunkBytes < s.sourceBytes - r.offset then s.chunkBytes else s.sourceBytes - r.offset)
      && ((r.flags == 0 && r.stored == r.length) || (r.flags == 1 && r.stored == 0 && r.payloadSum == 0))
  {
    if index > MAX64 / s.chunkBytes {
      Euclid(MAX64, s.chunkBytes);
      MulGap(index, MAX64 / s.chunkBytes, s.chunkBytes);
    }
  }
}
