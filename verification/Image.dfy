/** Creating, walking and restoring FSXIMG1 images (src/ops/image.cpp). */
module Image {
  import opened Endian
  import opened ImageCodec
  import opened Arithmetic

  // ---------- chunks ----------

  /** Where chunk `i` begins, or the end of the source. */
  function Edge(s: Shape, i: nat): nat { Min(i * s.chunkBytes, s.sourceBytes) }

  predicate Counted(s: Shape) {
    s.chunkBytes > 0 && s.sourceBytes > 0 && s.chunks == CeilDiv(s.sourceBytes, s.chunkBytes)
  }

  /** The chunks tile the source: they start at 0, follow one another and end with it. */
  lemma ChunkEdges(s: Shape, i: nat)
    requires Counted(s)
    ensures Edge(s, 0) == 0 && Edge(s, s.chunks) == s.sourceBytes
    ensures i < s.chunks ==> Edge(s, i) == i * s.chunkBytes < s.sourceBytes
    ensures i < s.chunks ==> Edge(s, i + 1) - Edge(s, i) == Min(s.chunkBytes, s.sourceBytes - Edge(s, i))
    ensures Edge(s, i) <= Edge(s, i + 1) <= s.sourceBytes
    ensures i < s.chunks ==> i <= MAX64 / s.chunkBytes
  {
    var n, d: nat := s.sourceBytes, s.chunkBytes;
    Division(n, d);
    assert (i + 1) * d == i * d + d;
    if i < s.chunks {
      Monotone(i, s.chunks - 1, d);
      Monotone(i + 1, s.chunks, d);
      assert i * d < n;
      QuotientBound(i, d, MAX64);
    } else {
      Monotone(s.chunks, i, d);
    }
  }

  lemma Division(n: nat, d: nat)
    requires d > 0 && n > 0
    ensures (CeilDiv(n, d) - 1) * d < n <= CeilDiv(n, d) * d
  {
    var q := n / d;
    assert n == q * d + n % d;
    assert (q + 1) * d == q * d + d && (q - 1) * d == q * d - d;
  }

  lemma QuotientBound(i: nat, d: nat, n: nat)
    requires d > 0 && i * d <= n
    ensures i <= n / d
  {
    var q := n / d;
    assert n == q * d + n % d;
    assert (i - q) * d == i * d - q * d;
    NoMultiple(i - q, d);
  }

  function ChunkData(src: seq<byte>, s: Shape, i: nat): seq<byte>
    requires |src| == s.sourceBytes && Edge(s, i) <= Edge(s, i + 1)
  {
    src[Edge(s, i)..Edge(s, i + 1)]
  }

  predicate AllZeros(b: seq<byte>) { forall i :: 0 <= i < |b| ==> b[i] == 0 }

  lemma {:induction false} NumZero(b: seq<byte>)
    ensures Num(b) == 0 <==> AllZeros(b)
    decreases |b|
  {
    if b != [] {
      NumZero(b[1..]);
      assert b == [b[0]] + b[1..];
    }
  }

  /** all_zero scans eight bytes at a time, then the rest one by one. */
  method AllZero(b: seq<byte>) returns (r: bool)
    ensures r <==> AllZeros(b)
  {
    var i := 0;
    while i + 8 <= |b|
      invariant 0 <= i <= |b| && forall k :: 0 <= k < i ==> b[k] == 0
    {
      var word := b[i..i + 8];
      NumZero(word);
      if Num64(word) != 0 {
        assert !AllZeros(word);
        return false;
      }
      forall k | i <= k < i + 8 ensures b[k] == 0 { assert word[k - i] == 0; }
      i := i + 8;
    }
    while i < |b|
      invariant 0 <= i <= |b| && forall k :: 0 <= k < i ==> b[k] == 0
    {
      if b[i] != 0 { return false; }
      i := i + 1;
    }
    r := true;
  }

  // ---------- the image of a source ----------

  /** What an image depends on. */
  datatype Origin = Origin(src: seq<byte>, shape: Shape, sparse: bool, sum: Checksum)

  predicate Valid(o: Origin) {
    && |o.src| == o.shape.sourceBytes && Counted(o.shape)
    && 64 * 1024 <= o.shape.chunkBytes <= 64 * 1024 * 1024 && o.shape.sector > 0 && o.shape.chunkBytes % o.shape.sector == 0
  }

  function DataOf(o: Origin, i: nat): (r: seq<byte>)
    requires Valid(o)
    ensures |r| == Edge(o.shape, i + 1) - Edge(o.shape, i)
  {
    ChunkEdges(o.shape, i);
    ChunkData(o.src, o.shape, i)
  }

  predicate IsZero(o: Origin, i: nat)
    requires Valid(o)
  {
    o.sparse && AllZeros(DataOf(o, i))
  }

  function RecordOf(o: Origin, i: nat): Record
    requires Valid(o) && i < o.shape.chunks
  {
    ChunkEdges(o.shape, i);
    var n := |DataOf(o, i)|;
    if IsZero(o, i) then Record(i, Edge(o.shape, i), n, 0, 1, 0)
    else Record(i, Edge(o.shape, i), n, n, 0, o.sum(DataOf(o, i)))
  }

  function Encoded(o: Origin, i: nat): seq<byte>
    requires Valid(o) && i < o.shape.chunks
  {
    MakeRecord(RecordOf(o, i), o.sum) + if IsZero(o, i) then [] else DataOf(o, i)
  }

  function Chunks(o: Origin, n: nat): seq<byte>
    requires Valid(o) && n <= o.shape.chunks
  {
    if n == 0 then [] else Chunks(o, n - 1) + Encoded(o, n - 1)
  }

  /** Chunks with and without payload, and payload bytes, among the first `n`. */
  function DataChunks(o: Origin, n: nat): (r: nat)
    requires Valid(o) && n <= o.shape.chunks
    ensures r <= n
  {
    if n == 0 then 0 else DataChunks(o, n - 1) + if IsZero(o, n - 1) then 0 else 1
  }

  function PayloadBytes(o: Origin, n: nat): (r: nat)
    requires Valid(o) && n <= o.shape.chunks
    ensures r <= Edge(o.shape, n)
  {
    if n == 0 then 0
    else
      ChunkEdges(o.shape, n - 1);
      PayloadBytes(o, n - 1) + if IsZero(o, n - 1) then 0 else |DataOf(o, n - 1)|
  }

  function TotalsOf(o: Origin): Totals
    requires Valid(o)
  {
    var n := o.shape.chunks;
    ChunkEdges(o.shape, n);
    Totals(DataChunks(o, n), n - DataChunks(o, n), PayloadBytes(o, n))
  }

  function ImageOf(o: Origin): seq<byte>
    requires Valid(o)
  {
    MakeHeader(o.shape, true, o.sum) + Chunks(o, o.shape.chunks) + MakeFooter(o.shape.chunks, TotalsOf(o), o.sum)
  }

  // ---------- create ----------

  datatype Created = Created(image: seq<byte>, totals: Totals)

  /** One chunk: its record, and its bytes unless it is left out as zero. */
  method EncodeChunk(span: seq<byte>, i: nat, off: nat, sparse: bool, sum: Checksum, ghost o: Origin) returns (zero: bool, bytes: seq<byte>)
    requires Valid(o) && i < o.shape.chunks && off == Edge(o.shape, i) && sparse == o.sparse && sum == o.sum
    requires off <= MAX64 && |span| <= 64 * 1024 * 1024 && span == DataOf(o, i)
    ensures zero == IsZero(o, i) && bytes == Encoded(o, i)
  {
    hide MakeRecord, DataOf;
    zero := false;
    if sparse { zero := AllZero(span); }
    var n := |span|;
    ChunkEdges(o.shape, i);
    bytes := MakeRecord(Record(i, off, n, if zero then 0 else n, if zero then 1 else 0, if zero then 0 else sum(span)), sum);
    if !zero { bytes := bytes + span; }
  }

  /** create: streams the chunks behind an incomplete header, and completes the header last; `partial` is the file until then. */
  method Create(src: seq<byte>, sector: u32, chunkBytes: u32, sparse: bool, sum: Checksum) returns (r: Result<Created>, ghost o: Origin, ghost partial: seq<byte>)
    requires |src| <= MAX64
    ensures r == Err(BadOption) <==> chunkBytes < 64 * 1024 || chunkBytes > 64 * 1024 * 1024 || sector == 0 || chunkBytes % sector != 0
    ensures r.Err? ==> r.why == BadOption || r.why == EmptySource || r.why == Cancelled
    ensures r == Err(EmptySource) <==> src == [] && r != Err(BadOption)
    ensures r.Ok? ==> Valid(o) && o.src == src && o.shape.sector == sector && o.shape.chunkBytes == chunkBytes && o.sparse == sparse && o.sum == sum
    ensures r.Ok? || r == Err(Cancelled) ==> Valid(o) && MakeHeader(o.shape, false, o.sum) <= partial
    ensures r.Ok? ==> r.value.image == MakeHeader(o.shape, true, o.sum) + partial[HEADER_SIZE..]
    ensures r.Ok? ==> r.value == Created(ImageOf(o), TotalsOf(o))
  {
    o := Origin(src, Shape(0, 0, 0, 0), sparse, sum);
    partial := [];
    if chunkBytes < 64 * 1024 || chunkBytes > 64 * 1024 * 1024 { return Err(BadOption), o, partial; }
    if sector == 0 { return Err(BadOption), o, partial; }
    if chunkBytes % sector != 0 { return Err(BadOption), o, partial; }
    if src == [] { return Err(EmptySource), o, partial; }
    CeilFits(|src|, chunkBytes);
    var s := Shape(|src|, sector, chunkBytes, CeilDiv(|src|, chunkBytes));
    var origin := Origin(src, s, sparse, sum);
    o := origin;
    var done, out, totals := WriteChunks(origin);
    partial := out;
    if !done { return Err(Cancelled), o, partial; }
    hide MakeHeader, MakeFooter, Chunks, TotalsOf;
    out := out + MakeFooter(s.chunks, totals, sum);
    ghost var h, c, f := MakeHeader(s, false, sum), Chunks(o, s.chunks), MakeFooter(s.chunks, totals, sum);
    partial := out;
    out := MakeHeader(s, true, sum) + out[HEADER_SIZE..];
    ReplaceHeader(h, MakeHeader(s, true, sum), c, f);
    r := Ok(Created(out, totals));
  }

  lemma ReplaceHeader(a: seq<byte>, b: seq<byte>, c: seq<byte>, f: seq<byte>)
    requires |a| == HEADER_SIZE
    ensures b + (a + c + f)[HEADER_SIZE..] == b + c + f
  {
  }

  /** The loop of create, behind an incomplete header. */
  method WriteChunks(o: Origin) returns (done: bool, out: seq<byte>, totals: Totals)
    requires Valid(o)
    ensures MakeHeader(o.shape, false, o.sum) <= out
    ensures done ==> out == MakeHeader(o.shape, false, o.sum) + Chunks(o, o.shape.chunks) && totals == TotalsOf(o)
  {
    hide MakeHeader, MakeFooter, Encoded, IsZero, CeilDiv;
    var s := o.shape;
    out, totals := MakeHeader(s, false, o.sum), Totals(0, 0, 0);
    var off, zeros, data, payload := 0, 0, 0, 0;
    ChunkEdges(s, 0);
    for i := 0 to s.chunks
      invariant out == MakeHeader(s, false, o.sum) + Chunks(o, i)
      invariant off == Edge(s, i) && data == DataChunks(o, i) && zeros == i - data && payload == PayloadBytes(o, i)
    {
      hide Edge;
      var cancel := *;
      if cancel { return false, out, totals; }
      ChunkEdges(s, i);
      var n := Min(s.chunkBytes, s.sourceBytes - off);
      var zero, bytes := EncodeChunk(o.src[off..off + n], i, off, o.sparse, o.sum, o);
      out := out + bytes;
      if zero {
        zeros := zeros + 1;
      } else {
        data := data + 1;
        payload := payload + n;
      }
      off := off + n;
    }
    ChunkEdges(s, s.chunks);
    totals := Totals(data, zeros, payload);
    done := true;
  }

  lemma CeilFits(n: nat, d: nat)
    requires 0 < d && 0 < n <= MAX64
    ensures 0 < CeilDiv(n, d) <= n
  {
    Division(n, d);
    var q := CeilDiv(n, d);
    assert q > 0;
    Monotone(1, d, q - 1);
  }

  // ---------- what any accepted image looks like ----------

  /** Where record `i` begins, given the records before it. */
  function Position(recs: seq<Record>, i: nat): nat
    requires i <= |recs|
  {
    if i == 0 then HEADER_SIZE else Position(recs, i - 1) + RECORD_SIZE + recs[i - 1].stored
  }

  /** The two lists begin with the same `n` records. */
  predicate SameFirst(a: seq<Record>, b: seq<Record>, n: nat) {
    n <= |a| && n <= |b| && forall k :: 0 <= k < n ==> a[k] == b[k]
  }

  lemma {:induction false} PositionPrefix(a: seq<Record>, b: seq<Record>, i: nat)
    requires SameFirst(a, b, i)
    ensures Position(a, i) == Position(b, i)
    decreases i
  {
    if i > 0 { PositionPrefix(a, b, i - 1); }
  }

  /** The bytes at record `i`'s place parse as record `i`, and its payload is there. */
  ghost predicate ParsesAt(img: seq<byte>, s: Shape, sum: Checksum, recs: seq<Record>, i: nat)
    requires s.chunkBytes > 0 && i < |recs|
  {
    var p := Position(recs, i);
    p + RECORD_SIZE + recs[i].stored <= |img| && ParseRecord(img[p..p + RECORD_SIZE], s, i, sum) == Ok(recs[i])
  }

  ghost predicate Parses(img: seq<byte>, s: Shape, sum: Checksum, recs: seq<Record>)
    requires s.chunkBytes > 0
  {
    forall i :: 0 <= i < |recs| ==> ParsesAt(img, s, sum, recs, i)
  }

  lemma ParsesMore(img: seq<byte>, s: Shape, sum: Checksum, recs: seq<Record>, r: Record)
    requires s.chunkBytes > 0 && Parses(img, s, sum, recs)
    requires var p := Position(recs, |recs|);
      p + RECORD_SIZE + r.stored <= |img| && ParseRecord(img[p..p + RECORD_SIZE], s, |recs|, sum) == Ok(r)
    ensures Parses(img, s, sum, recs + [r])
    ensures Position(recs + [r], |recs| + 1) == Position(recs, |recs|) + RECORD_SIZE + r.stored
  {
    hide ParseRecord;
    var all := recs + [r];
    PositionPrefix(recs, all, |recs|);
    forall i | 0 <= i < |all| ensures ParsesAt(img, s, sum, all, i) {
      if i < |recs| {
        assert ParsesAt(img, s, sum, recs, i);
        PositionPrefix(recs, all, i);
      }
    }
  }

  /** The records tile the source range exactly. */
  predicate Tiles(s: Shape, recs: seq<Record>) {
    forall i :: 0 <= i < |recs| ==> recs[i].offset == Edge(s, i) && recs[i].offset + recs[i].length == Edge(s, i + 1)
  }

  lemma ParsedTiles(img: seq<byte>, s: Shape, sum: Checksum, recs: seq<Record>)
    requires Counted(s) && Parses(img, s, sum, recs) && |recs| <= s.chunks
    ensures Tiles(s, recs)
  {
    forall i | 0 <= i < |recs| ensures recs[i].offset == Edge(s, i) && recs[i].offset + recs[i].length == Edge(s, i + 1) {
      assert ParsesAt(img, s, sum, recs, i);
      ChunkEdges(s, i);
    }
  }

  function CountData(recs: seq<Record>): (r: nat)
    ensures r <= |recs|
  {
    if recs == [] then 0 else CountData(recs[..|recs| - 1]) + if recs[|recs| - 1].flags == 1 then 0 else 1
  }

  function SumStored(recs: seq<Record>): nat {
    if recs == [] then 0 else SumStored(recs[..|recs| - 1]) + recs[|recs| - 1].stored
  }

  /** An image that is accepted: its records tile the source, its footer counts them, and nothing follows. */
  ghost predicate Accepted(img: seq<byte>, s: Shape, sum: Checksum, recs: seq<Record>, t: Totals) {
    && Counted(s) && |recs| == s.chunks && Parses(img, s, sum, recs) && Tiles(s, recs)
    && t.dataChunks == CountData(recs) && t.dataChunks + t.zeroChunks == s.chunks && t.payloadBytes == SumStored(recs)
    && |img| == Position(recs, |recs|) + FOOTER_SIZE
  }

  // ---------- the records of a created image ----------

  lemma RecordParts(o: Origin, i: nat)
    requires Valid(o) && i < o.shape.chunks
    ensures var r := RecordOf(o, i);
      && |Encoded(o, i)| == RECORD_SIZE + r.stored && (r.flags == 1 <==> IsZero(o, i)) && r.flags <= 1
      && r.stored == (if IsZero(o, i) then 0 else |DataOf(o, i)|)
  {
    hide MakeRecord, AllZeros;
  }

  /** Record `i` describes the bytes of chunk `i`: elided exactly when leaving out zeros was asked for and every byte is zero. */
  lemma RecordMeans(o: Origin, i: nat)
    requires Valid(o) && i < o.shape.chunks
    ensures var a := i * o.shape.chunkBytes;
      var z := if a + o.shape.chunkBytes < |o.src| then a + o.shape.chunkBytes else |o.src|;
      var r := RecordOf(o, i);
      && a < z <= |o.src| && r.index == i && r.offset == a && r.length == z - a
      && (r.flags == 1 <==> o.sparse && forall k :: a <= k < z ==> o.src[k] == 0)
      && (r.flags == 1 ==> r.stored == 0 && r.payloadSum == 0)
      && (r.flags != 1 ==> r.flags == 0 && r.stored == z - a && r.payloadSum == o.sum(o.src[a..z]))
  {
    ChunkEdges(o.shape, i);
    var a, z := Edge(o.shape, i), Edge(o.shape, i + 1);
    assert (i + 1) * o.shape.chunkBytes == i * o.shape.chunkBytes + o.shape.chunkBytes;
    var d := DataOf(o, i);
    assert d == o.src[a..z];
    if AllZeros(d) { forall k | a <= k < z ensures o.src[k] == 0 { assert d[k - a] == 0; } }
  }

  function RecordsOf(o: Origin, n: nat): (r: seq<Record>)
    requires Valid(o) && n <= o.shape.chunks
    ensures |r| == n
  {
    seq(n, i requires 0 <= i < n => RecordOf(o, i))
  }

  lemma {:induction false} CreatedPosition(o: Origin, n: nat, i: nat)
    requires Valid(o) && i <= n <= o.shape.chunks
    ensures Position(RecordsOf(o, n), i) == HEADER_SIZE + |Chunks(o, i)|
    decreases i
  {
    hide Encoded, RecordOf;
    if i > 0 {
      CreatedPosition(o, n, i - 1);
      RecordParts(o, i - 1);
      assert RecordsOf(o, n)[i - 1] == RecordOf(o, i - 1);
    }
  }

  lemma {:induction false} ChunksPrefix(o: Origin, i: nat, n: nat)
    requires Valid(o) && i < n <= o.shape.chunks
    ensures Chunks(o, i) + Encoded(o, i) <= Chunks(o, n)
    decreases n
  {
    hide Encoded;
    if i < n - 1 { ChunksPrefix(o, i, n - 1); }
  }

  /** Reading a created image at the place of record `i`. */
  lemma CreatedChunk(o: Origin, i: nat)
    requires Valid(o) && i < o.shape.chunks
    ensures var img, p := ImageOf(o), HEADER_SIZE + |Chunks(o, i)|;
      && p + |Encoded(o, i)| <= |img| && img[p..p + |Encoded(o, i)|] == Encoded(o, i)
  {
    hide Encoded, Chunks, MakeHeader, MakeFooter;
    ChunksPrefix(o, i, o.shape.chunks);
    var h, c, f := MakeHeader(o.shape, true, o.sum), Chunks(o, o.shape.chunks), MakeFooter(o.shape.chunks, TotalsOf(o), o.sum);
    var a, e := Chunks(o, i), Encoded(o, i);
    SliceMiddle(h, c, f, a, e);
  }

  lemma SliceMiddle(h: seq<byte>, c: seq<byte>, f: seq<byte>, a: seq<byte>, e: seq<byte>)
    requires a + e <= c
    ensures |h| + |a| + |e| <= |h + c + f| && (h + c + f)[|h| + |a|..|h| + |a| + |e|] == e
  {
    var whole := h + c + f;
    forall k | 0 <= k < |e| ensures whole[|h| + |a| + k] == e[k] {
      assert c[|a| + k] == (a + e)[|a| + k];
    }
  }

  lemma CreatedRecordReads(o: Origin, i: nat)
    requires Valid(o) && i < o.shape.chunks
    ensures var img, p, r := ImageOf(o), HEADER_SIZE + |Chunks(o, i)|, RecordOf(o, i);
      && p + RECORD_SIZE + r.stored <= |img|
      && ParseRecord(img[p..p + RECORD_SIZE], o.shape, i, o.sum) == Ok(r)
      && (r.flags == 0 ==> img[p + RECORD_SIZE..p + RECORD_SIZE + r.stored] == DataOf(o, i))
  {
    hide MakeRecord, DecodeRecord, Chunks, ImageOf;
    CreatedChunk(o, i);
    var img, p, r := ImageOf(o), HEADER_SIZE + |Chunks(o, i)|, RecordOf(o, i);
    var e := Encoded(o, i);
    var m := MakeRecord(r, o.sum);
    assert img[p..p + RECORD_SIZE] == img[p..p + |e|][..RECORD_SIZE] == m;
    assert r.flags == 0 ==> img[p + RECORD_SIZE..p + RECORD_SIZE + r.stored] == img[p..p + |e|][RECORD_SIZE..];
    RecordRoundTrip(r, o.sum);
    RecordChecks(o, i);
  }

  lemma RecordChecks(o: Origin, i: nat)
    requires Valid(o) && i < o.shape.chunks
    ensures CheckRecord(RecordOf(o, i), o.shape, i) == Ok(RecordOf(o, i))
  {
    ChunkEdges(o.shape, i);
  }

  lemma CreatedEnds(o: Origin)
    requires Valid(o)
    ensures var img, p := ImageOf(o), HEADER_SIZE + |Chunks(o, o.shape.chunks)|;
      && |img| == p + FOOTER_SIZE && img[..HEADER_SIZE] == MakeHeader(o.shape, true, o.sum)
      && img[p..] == MakeFooter(o.shape.chunks, TotalsOf(o), o.sum)
  {
    hide Chunks, MakeHeader, MakeFooter;
  }

  lemma {:induction false} CreatedTotals(o: Origin, n: nat)
    requires Valid(o) && n <= o.shape.chunks
    ensures CountData(RecordsOf(o, n)) == DataChunks(o, n) && SumStored(RecordsOf(o, n)) == PayloadBytes(o, n)
    decreases n
  {
    hide Encoded, RecordOf, IsZero, DataOf;
    if n > 0 {
      CreatedTotals(o, n - 1);
      RecordParts(o, n - 1);
      assert RecordsOf(o, n)[..n - 1] == RecordsOf(o, n - 1);
    }
  }

  /** The header of a created image is accepted exactly when its sector size is one a reader accepts. */
  lemma CreatedHeader(o: Origin)
    requires Valid(o)
    ensures ParseHeader(ImageOf(o)[..HEADER_SIZE], o.sum) == if SectorOk(o.shape.sector) then Ok(Header(o.shape, true)) else Err(BadGeometry)
  {
    hide SectorOk;
    CreatedEnds(o);
    HeaderRoundTrip(o.shape, true, o.sum);
  }

  /** A file that still begins with the incomplete header does not parse as a complete image. */
  lemma IncompleteHeader(o: Origin, file: seq<byte>)
    requires Valid(o) && MakeHeader(o.shape, false, o.sum) <= file
    ensures |file| >= HEADER_SIZE
    ensures ParseHeader(file[..HEADER_SIZE], o.sum) == if SectorOk(o.shape.sector) then Ok(Header(o.shape, false)) else Err(BadGeometry)
  {
    hide SectorOk, MakeHeader;
    HeaderRoundTrip(o.shape, false, o.sum);
    assert file[..HEADER_SIZE] == MakeHeader(o.shape, false, o.sum);
  }
}
