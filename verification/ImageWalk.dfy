/** Verifying and restoring FSXIMG1 images: walk_image and restore of src/ops/image.cpp. */
module ImageWalk {
  import opened Arithmetic
  import opened Endian
  import opened ImageCodec
  import opened Image

  datatype Walked = Walked(shape: Shape, totals: Totals)

  /** The image was made by create from `o`. */
  ghost predicate MadeFrom(img: seq<byte>, sum: Checksum, o: Origin) {
    Valid(o) && o.sum == sum && img == ImageOf(o)
  }

  /** The problems that reading records and footers can report. */
  predicate Ordinary(p: Problem) { p != PayloadOverflow && p != Mismatch && p != TargetTooSmall && p != Incomplete }

  /** The bytes a record stands for, when its payload is at `p`. */
  function PayloadAt(img: seq<byte>, p: nat, rec: Record): seq<byte>
    requires p + rec.stored <= |img|
  {
    if rec.flags == 1 then Zeros(rec.length) else img[p..p + rec.stored]
  }

  /** The bytes record `i` stands for. */
  function Payload(img: seq<byte>, recs: seq<Record>, i: nat): seq<byte>
    requires i < |recs| && Position(recs, i) + RECORD_SIZE + recs[i].stored <= |img|
  {
    PayloadAt(img, Position(recs, i) + RECORD_SIZE, recs[i])
  }

  /** The payload of a data chunk has the checksum its record gives. */
  predicate PayloadOk(img: seq<byte>, sum: Checksum, recs: seq<Record>, i: nat)
    requires i < |recs| && Position(recs, i) + RECORD_SIZE + recs[i].stored <= |img|
  {
    recs[i].flags == 0 ==> sum(Payload(img, recs, i)) == recs[i].payloadSum
  }

  /** Every record parses, and if asked every payload has been checked. */
  ghost predicate Checked(img: seq<byte>, s: Shape, sum: Checksum, recs: seq<Record>, verify: bool)
    requires s.chunkBytes > 0
  {
    && Parses(img, s, sum, recs)
    && forall i :: 0 <= i < |recs| && verify ==> ParsesAt(img, s, sum, recs, i) && PayloadOk(img, sum, recs, i)
  }

  lemma CheckedMore(img: seq<byte>, s: Shape, sum: Checksum, recs: seq<Record>, r: Record, verify: bool)
    requires s.chunkBytes > 0 && Checked(img, s, sum, recs, verify)
    requires var p := Position(recs, |recs|);
      && p + RECORD_SIZE + r.stored <= |img| && ParseRecord(img[p..p + RECORD_SIZE], s, |recs|, sum) == Ok(r)
      && (verify && r.flags == 0 ==> sum(PayloadAt(img, p + RECORD_SIZE, r)) == r.payloadSum)
    ensures Checked(img, s, sum, recs + [r], verify)
    ensures Position(recs + [r], |recs| + 1) == Position(recs, |recs|) + RECORD_SIZE + r.stored
  {
    hide ParseRecord, PayloadOk, Payload, Position;
    ParsesMore(img, s, sum, recs, r);
    var all := recs + [r];
    forall i | 0 <= i < |all| && verify ensures ParsesAt(img, s, sum, all, i) && PayloadOk(img, sum, all, i) {
      assert ParsesAt(img, s, sum, all, i);
      if i < |recs| {
        assert ParsesAt(img, s, sum, recs, i) && PayloadOk(img, sum, recs, i);
        SamePayload(img, sum, recs, all, i);
      } else {
        LastPayload(img, sum, recs, r);
      }
    }
  }

  lemma SamePayload(img: seq<byte>, sum: Checksum, a: seq<Record>, b: seq<Record>, i: nat)
    requires i < |a| && i < |b| && SameFirst(a, b, i + 1)
    requires Position(a, i) + RECORD_SIZE + a[i].stored <= |img|
    ensures Position(a, i) == Position(b, i) && Payload(img, a, i) == Payload(img, b, i)
    ensures PayloadOk(img, sum, a, i) <==> PayloadOk(img, sum, b, i)
  {
    PositionPrefix(a, b, i);
  }

  lemma LastPosition(recs: seq<Record>, r: Record)
    ensures Position(recs + [r], |recs|) == Position(recs, |recs|)
  {
    PositionPrefix(recs, recs + [r], |recs|);
  }

  lemma LastPayload(img: seq<byte>, sum: Checksum, recs: seq<Record>, r: Record)
    requires Position(recs, |recs|) + RECORD_SIZE + r.stored <= |img|
    ensures Position(recs + [r], |recs|) == Position(recs, |recs|)
    ensures Payload(img, recs + [r], |recs|) == PayloadAt(img, Position(recs, |recs|) + RECORD_SIZE, r)
    ensures PayloadOk(img, sum, recs + [r], |recs|) <==>
      (r.flags == 0 ==> sum(PayloadAt(img, Position(recs, |recs|) + RECORD_SIZE, r)) == r.payloadSum)
  {
    hide Position, PayloadAt;
    LastPosition(recs, r);
    assert (recs + [r])[|recs|] == r;
  }

  lemma RecordBounds(b: seq<byte>, s: Shape, i: nat, sum: Checksum)
    requires Counted(s) && i < s.chunks && ParseRecord(b, s, i, sum).Ok?
    ensures var r := ParseRecord(b, s, i, sum).value;
      && r.flags <= 1 && r.stored <= r.length == Edge(s, i + 1) - Edge(s, i) && r.offset == Edge(s, i)
      && (r.flags == 0 ==> r.stored == r.length) && (r.flags == 1 ==> r.stored == 0)
  {
    hide DecodeRecord;
    ChunkEdges(s, i);
  }

  /** Record `x` lies at `pos` as record `i`, with its payload behind it. */
  ghost predicate Lies(img: seq<byte>, s: Shape, sum: Checksum, pos: nat, i: nat, verify: bool, x: Record)
    requires s.chunkBytes > 0
  {
    && pos + RECORD_SIZE + x.stored <= |img| && ParseRecord(img[pos..pos + RECORD_SIZE], s, i, sum) == Ok(x)
    && (verify && x.flags != 1 ==> sum(img[pos + RECORD_SIZE..pos + RECORD_SIZE + x.stored]) == x.payloadSum)
  }

  /** Record `i` and its payload, read exactly when they lie where record `i` should be. */
  method ReadChunk(img: seq<byte>, s: Shape, sum: Checksum, pos: nat, i: nat, payload: nat, verify: bool, ghost recs: seq<Record>) returns (r: Result<Record>)
    requires Counted(s) && i < s.chunks && |recs| == i && Checked(img, s, sum, recs, verify) && pos == Position(recs, i)
    requires payload <= Edge(s, i)
    ensures r.Ok? ==> Checked(img, s, sum, recs + [r.value], verify)
    ensures r.Ok? ==> Position(recs + [r.value], i + 1) == pos + RECORD_SIZE + r.value.stored <= |img|
    ensures r.Ok? ==> r.value.flags <= 1 && r.value.stored <= r.value.length == Edge(s, i + 1) - Edge(s, i) && r.value.offset == Edge(s, i)
    ensures r.Ok? ==> (r.value.flags == 0 ==> r.value.stored == r.value.length) && (r.value.flags == 1 ==> r.value.stored == 0)
    ensures r.Err? ==> Ordinary(r.why)
    ensures forall x :: Lies(img, s, sum, pos, i, verify, x) <==> r == Ok(x)
  {
    hide ParseRecord, Checked, Edge, Position, CeilDiv;
    if pos + RECORD_SIZE > |img| { return Err(Truncated); }
    var head := img[pos..pos + RECORD_SIZE];
    var rec := ParseRecord(head, s, i, sum);
    ParseProblems(head, s, i, sum);
    if rec.Err? { return rec; }
    RecordBounds(head, s, i, sum);
    ChunkEdges(s, i);
    var n := rec.value.stored;
    if rec.value.flags != 1 && payload > s.sourceBytes - n { return Err(PayloadOverflow); }
    if pos + RECORD_SIZE + n > |img| { return Err(Truncated); }
    if verify && rec.value.flags != 1 && sum(img[pos + RECORD_SIZE..pos + RECORD_SIZE + n]) != rec.value.payloadSum { return Err(BadPayload); }
    CheckedMore(img, s, sum, recs, rec.value, verify);
    r := rec;
  }

  /** What reading a created image at record `i` finds. */
  lemma MadeReads(img: seq<byte>, s: Shape, sum: Checksum, o: Origin, i: nat, verify: bool)
    requires MadeFrom(img, sum, o) && s == o.shape && i < s.chunks
    ensures Lies(img, s, sum, Position(RecordsOf(o, i), i), i, verify, RecordOf(o, i))
  {
    hide ParseRecord, ImageOf, RecordOf, Position, Chunks;
    CreatedPosition(o, i, i);
    CreatedRecordReads(o, i);
    CreatedSum(o, i);
  }

  lemma ParseProblems(b: seq<byte>, s: Shape, i: nat, sum: Checksum)
    requires s.chunkBytes > 0
    ensures var r := ParseRecord(b, s, i, sum); r.Err? ==> Ordinary(r.why)
  {
  }

  lemma CreatedSum(o: Origin, i: nat)
    requires Valid(o) && i < o.shape.chunks
    ensures var r := RecordOf(o, i); r.flags <= 1 && (r.flags == 0 ==> o.sum(DataOf(o, i)) == r.payloadSum)
  {
    hide DataOf, AllZeros;
  }

  lemma RecordsMore(o: Origin, i: nat)
    requires Valid(o) && i < o.shape.chunks
    ensures RecordsOf(o, i) + [RecordOf(o, i)] == RecordsOf(o, i + 1)
  {
    hide RecordOf;
  }

  function HeaderOf(img: seq<byte>, sum: Checksum): Result<Header> {
    if |img| < HEADER_SIZE then Err(Truncated) else ParseHeader(img[..HEADER_SIZE], sum)
  }

  lemma HeaderCounted(img: seq<byte>, sum: Checksum)
    ensures HeaderOf(img, sum).Ok? ==> Counted(HeaderOf(img, sum).value.shape)
    ensures HeaderOf(img, sum).Err? ==> HeaderOf(img, sum).why != PayloadOverflow && HeaderOf(img, sum).why != Mismatch && HeaderOf(img, sum).why != TargetTooSmall
  {
    hide SectorOk;
  }

  lemma MadeHeader(img: seq<byte>, sum: Checksum, o: Origin)
    requires MadeFrom(img, sum, o)
    ensures HeaderOf(img, sum) == if SectorOk(o.shape.sector) then Ok(Header(o.shape, true)) else Err(BadGeometry)
  {
    hide SectorOk, ParseHeader, ImageOf;
    CreatedEnds(o);
    CreatedHeader(o);
  }

  /** Whatever create leaves behind when it is cut short is no image to a reader. */
  lemma PartialRefused(o: Origin, file: seq<byte>, verify: bool, s: Shape, recs: seq<Record>, t: Totals)
    requires Valid(o) && MakeHeader(o.shape, false, o.sum) <= file
    ensures !Good(file, o.sum, verify, s, recs, t)
  {
    hide ParseHeader, MakeHeader, SectorOk, ParseFooter, Checked;
    IncompleteHeader(o, file);
  }

  /** A source with 768-byte sectors: create makes an image of it that no reader accepts. */
  lemma OddSectorRefused(src: seq<byte>, sum: Checksum) returns (o: Origin)
    requires 0 < |src| <= MAX64
    ensures Valid(o) && o.src == src && o.shape.sector == 768 && o.sum == sum
    ensures HeaderOf(ImageOf(o), sum) == Err(BadGeometry)
  {
    CeilFits(|src|, 196608);
    hide ImageOf, CeilDiv, HeaderOf;
    o := Origin(src, Shape(|src|, 768, 196608, CeilDiv(|src|, 196608)), true, sum);
    MadeHeader(ImageOf(o), sum, o);
    NotPowerOfTwo();
  }

  lemma NotPowerOfTwo()
    ensures !PowerOfTwo(768)
  {
    assert (768 as bv32) & (767 as bv32) == 512;
  }

  lemma TallyMore(recs: seq<Record>, r: Record)
    ensures CountData(recs + [r]) == CountData(recs) + (if r.flags == 1 then 0 else 1) && SumStored(recs + [r]) == SumStored(recs) + r.stored
  {
    assert (recs + [r])[..|recs|] == recs;
  }

  /** The image is a complete one of shape `s`: its records lie one after another, its footer counts them, and nothing follows. */
  ghost predicate Good(img: seq<byte>, sum: Checksum, verify: bool, s: Shape, recs: seq<Record>, t: Totals) {
    && HeaderOf(img, sum) == Ok(Header(s, true)) && Accepted(img, s, sum, recs, t) && Checked(img, s, sum, recs, verify)
    && ParseFooter(img[Position(recs, |recs|)..], s.chunks, sum) == Ok(t)
  }

  /** The walk has read the first records of every good reading of the image. */
  ghost predicate OnTrack(img: seq<byte>, sum: Checksum, verify: bool, s: Shape, recs: seq<Record>) {
    forall z, w, t :: Good(img, sum, verify, z, w, t) ==> z == s && recs <= w
  }

  lemma GoodLies(img: seq<byte>, sum: Checksum, verify: bool, s: Shape, w: seq<Record>, t: Totals, recs: seq<Record>)
    requires Good(img, sum, verify, s, w, t) && recs <= w && |recs| < |w|
    ensures Lies(img, s, sum, Position(recs, |recs|), |recs|, verify, w[|recs|])
  {
    hide ParseRecord, Position, Tiles, ParseFooter, HeaderOf;
    var i := |recs|;
    PositionPrefix(recs, w, i);
    assert ParsesAt(img, s, sum, w, i);
    if verify { assert PayloadOk(img, sum, w, i); }
    FlagsSmall(img[Position(w, i)..Position(w, i) + RECORD_SIZE], s, i, sum);
  }

  lemma FlagsSmall(b: seq<byte>, s: Shape, i: nat, sum: Checksum)
    requires s.chunkBytes > 0
    ensures ParseRecord(b, s, i, sum).Ok? ==> ParseRecord(b, s, i, sum).value.flags <= 1
  {
    hide DecodeRecord;
  }

  lemma TrackMore(img: seq<byte>, sum: Checksum, verify: bool, s: Shape, recs: seq<Record>, r: Record)
    requires s.chunkBytes > 0 && OnTrack(img, sum, verify, s, recs) && |recs| < s.chunks
    requires forall x :: Lies(img, s, sum, Position(recs, |recs|), |recs|, verify, x) ==> x == r
    ensures OnTrack(img, sum, verify, s, recs + [r])
  {
    hide Lies, Position;
    forall z, w, t | Good(img, sum, verify, z, w, t) ensures z == s && recs + [r] <= w {
      assert |w| == s.chunks by { GoodLength(img, sum, verify, z, w, t); }
      GoodLies(img, sum, verify, z, w, t, recs);
    }
  }

  lemma GoodLength(img: seq<byte>, sum: Checksum, verify: bool, s: Shape, w: seq<Record>, t: Totals)
    requires Good(img, sum, verify, s, w, t)
    ensures |w| == s.chunks
  {
  }

  /** Once a good image has no such record there is none at all. */
  lemma TrackLost(img: seq<byte>, sum: Checksum, verify: bool, s: Shape, recs: seq<Record>, z: Shape, w: seq<Record>, t: Totals)
    requires s.chunkBytes > 0 && OnTrack(img, sum, verify, s, recs) && |recs| < s.chunks && Good(img, sum, verify, z, w, t)
    ensures exists x :: Lies(img, s, sum, Position(recs, |recs|), |recs|, verify, x)
  {
    hide Lies, Position;
    GoodLength(img, sum, verify, z, w, t);
    GoodLies(img, sum, verify, z, w, t, recs);
  }

  /**
   walk_image accepts exactly the good images, with their shape and totals, unless it is cancelled;
   so the output of create exactly when its sector size is acceptable.
   */
  method WalkImage(img: seq<byte>, verify: bool, sum: Checksum, ghost o: Origin) returns (r: Result<Walked>, ghost recs: seq<Record>)
    ensures r.Ok? ==> Good(img, sum, verify, r.value.shape, recs, r.value.totals)
    ensures forall s, w, t :: Good(img, sum, verify, s, w, t) ==> r == Ok(Walked(s, t)) || r == Err(Cancelled)
    ensures r != Err(PayloadOverflow)
    ensures MadeFrom(img, sum, o) && SectorOk(o.shape.sector) ==> r == Ok(Walked(o.shape, TotalsOf(o))) || r == Err(Cancelled)
    ensures MadeFrom(img, sum, o) && !SectorOk(o.shape.sector) ==> r == Err(BadGeometry)
  {
    hide SectorOk, HeaderOf, ParseFooter, Good, OnTrack, MadeFrom, TotalsOf;
    recs := [];
    if MadeFrom(img, sum, o) {
      MadeHeader(img, sum, o);
      if SectorOk(o.shape.sector) { MadeGood(img, sum, verify, o); }
    }
    HeaderCounted(img, sum);
    var h := HeaderOf(img, sum);
    GoodHeader(img, sum, verify);
    if h.Err? { return Err(h.why), recs; }
    var s := h.value.shape;
    if !h.value.complete { return Err(Incomplete), recs; }
    r, recs := WalkRecords(img, verify, sum, s);
  }

  /** A good image has a complete header. */
  lemma GoodHeader(img: seq<byte>, sum: Checksum, verify: bool)
    ensures forall s, w, t :: Good(img, sum, verify, s, w, t) ==> HeaderOf(img, sum) == Ok(Header(s, true))
  {
    hide HeaderOf, ParseFooter, Accepted, Checked;
  }

  /** The record loop and the footer. */
  method WalkRecords(img: seq<byte>, verify: bool, sum: Checksum, s: Shape) returns (r: Result<Walked>, ghost recs: seq<Record>)
    requires HeaderOf(img, sum) == Ok(Header(s, true)) && Counted(s)
    ensures r.Ok? ==> Good(img, sum, verify, r.value.shape, recs, r.value.totals)
    ensures forall z, w, t :: Good(img, sum, verify, z, w, t) ==> r == Ok(Walked(z, t)) || r == Err(Cancelled)
    ensures r != Err(PayloadOverflow)
  {
    hide HeaderOf, ParseFooter, Checked, Edge, Position, Good, OnTrack, Lies;
    recs := [];
    var pos, zeros, data, payload := HEADER_SIZE, 0, 0, 0;
    NothingChecked(img, s, sum, verify);
    StartPosition();
    StartTrack(img, sum, verify, s);
    ChunkEdges(s, 0);
    for i := 0 to s.chunks
      invariant |recs| == i && Checked(img, s, sum, recs, verify) && pos == Position(recs, i) <= |img|
      invariant data == CountData(recs) && zeros == i - data && payload == SumStored(recs) <= Edge(s, i)
      invariant OnTrack(img, sum, verify, s, recs)
    {
      var cancel := *;
      if cancel { return Err(Cancelled), recs; }
      var rec := ReadChunk(img, s, sum, pos, i, payload, verify, recs);
      if rec.Err? {
        forall z, w, t | Good(img, sum, verify, z, w, t) ensures false { TrackLost(img, sum, verify, s, recs, z, w, t); }
        return Err(rec.why), recs;
      }
      TallyMore(recs, rec.value);
      TrackMore(img, sum, verify, s, recs, rec.value);
      recs := recs + [rec.value];
      pos := pos + RECORD_SIZE + rec.value.stored;
      if rec.value.flags == 1 { zeros := zeros + 1; } else { data := data + 1; payload := payload + rec.value.stored; }
    }
    CheckedTiles(img, s, sum, recs, verify);
    TrackEnds(img, sum, verify, s, recs);
    if pos + FOOTER_SIZE > |img| { return Err(Truncated), recs; }
    var f := ParseFooter(img[pos..pos + FOOTER_SIZE], s.chunks, sum);
    FooterTotals(img[pos..pos + FOOTER_SIZE], s.chunks, sum);
    if pos + FOOTER_SIZE == |img| { assert img[pos..pos + FOOTER_SIZE] == img[pos..]; }
    if f.Err? { return Err(f.why), recs; }
    if f.value.dataChunks != data || f.value.zeroChunks != zeros || f.value.payloadBytes != payload { return Err(BadAccounting), recs; }
    if pos + FOOTER_SIZE < |img| { return Err(TrailingData), recs; }
    assert Good(img, sum, verify, s, recs, f.value) by { FoundGood(img, sum, verify, s, recs, f.value); }
    r := Ok(Walked(s, f.value));
  }

  lemma FoundGood(img: seq<byte>, sum: Checksum, verify: bool, s: Shape, recs: seq<Record>, t: Totals)
    requires HeaderOf(img, sum) == Ok(Header(s, true)) && Accepted(img, s, sum, recs, t) && Checked(img, s, sum, recs, verify)
    requires ParseFooter(img[Position(recs, |recs|)..], s.chunks, sum) == Ok(t)
    ensures Good(img, sum, verify, s, recs, t)
  {
  }

  lemma StartTrack(img: seq<byte>, sum: Checksum, verify: bool, s: Shape)
    requires HeaderOf(img, sum) == Ok(Header(s, true))
    ensures OnTrack(img, sum, verify, s, []) && |img| >= HEADER_SIZE
  {
    hide ParseHeader, ParseFooter, Accepted, Checked;
  }

  lemma StartPosition()
    ensures Position([], 0) == HEADER_SIZE
  {
  }

  /** At the end only what was read can be good. */
  lemma TrackEnds(img: seq<byte>, sum: Checksum, verify: bool, s: Shape, recs: seq<Record>)
    requires OnTrack(img, sum, verify, s, recs) && |recs| == s.chunks
    ensures forall z, w, t :: Good(img, sum, verify, z, w, t) ==>
      && z == s && w == recs && |img| == Position(recs, |recs|) + FOOTER_SIZE && ParseFooter(img[Position(recs, |recs|)..], s.chunks, sum) == Ok(t)
      && t.dataChunks == CountData(recs) && t.dataChunks + t.zeroChunks == s.chunks && t.payloadBytes == SumStored(recs)
  {
    hide HeaderOf, ParseFooter, Checked, Position, Parses, Tiles, CountData, SumStored;
    forall z, w, t | Good(img, sum, verify, z, w, t)
      ensures z == s && w == recs && |img| == Position(recs, |recs|) + FOOTER_SIZE && ParseFooter(img[Position(recs, |recs|)..], s.chunks, sum) == Ok(t)
      ensures t.dataChunks == CountData(recs) && t.dataChunks + t.zeroChunks == s.chunks && t.payloadBytes == SumStored(recs)
    {
      assert |w| == |recs|;
      assert w == recs;
    }
  }

  /** What create makes is good. */
  lemma MadeGood(img: seq<byte>, sum: Checksum, verify: bool, o: Origin)
    requires MadeFrom(img, sum, o) && SectorOk(o.shape.sector)
    ensures Good(img, sum, verify, o.shape, RecordsOf(o, o.shape.chunks), TotalsOf(o))
  {
    hide ParseRecord, ParseFooter, ImageOf, RecordOf, Position, TotalsOf, HeaderOf, SectorOk;
    MadeHeader(img, sum, o);
    MadeFooter(o);
    var n := o.shape.chunks;
    var recs := RecordsOf(o, n);
    var p := Position(recs, n);
    assert img[p..p + FOOTER_SIZE] == img[p..];
    forall i | 0 <= i < n ensures ParsesAt(img, o.shape, sum, recs, i) && PayloadOk(img, sum, recs, i) {
      MadeReads(img, o.shape, sum, o, i, true);
      PositionPrefix(RecordsOf(o, i), recs, i);
    }
    ParsedTiles(img, o.shape, sum, recs);
  }

  lemma NothingRead(o: Origin)
    ensures Position([], 0) == HEADER_SIZE && (Valid(o) ==> RecordsOf(o, 0) == [])
  {
  }

  lemma NothingChecked(img: seq<byte>, s: Shape, sum: Checksum, verify: bool)
    requires s.chunkBytes > 0
    ensures Checked(img, s, sum, [], verify)
  {
  }

  lemma CheckedTiles(img: seq<byte>, s: Shape, sum: Checksum, recs: seq<Record>, verify: bool)
    requires Counted(s) && |recs| == s.chunks && Checked(img, s, sum, recs, verify)
    ensures Parses(img, s, sum, recs) && Tiles(s, recs)
  {
    hide ParsesAt;
    ParsedTiles(img, s, sum, recs);
  }

  lemma FooterTotals(b: seq<byte>, chunks: u64, sum: Checksum)
    ensures var f := ParseFooter(b, chunks, sum);
      if f.Ok? then f.value.dataChunks + f.value.zeroChunks == chunks else Ordinary(f.why)
  {
  }

  /** The footer of a created image is where the records end, and holds create's totals. */
  lemma MadeFooter(o: Origin)
    requires Valid(o)
    ensures var n := o.shape.chunks; var recs := RecordsOf(o, n); var img := ImageOf(o); var p := Position(recs, n);
      && |img| == p + FOOTER_SIZE && ParseFooter(img[p..p + FOOTER_SIZE], n, o.sum) == Ok(TotalsOf(o))
      && CountData(recs) == TotalsOf(o).dataChunks && SumStored(recs) == TotalsOf(o).payloadBytes
      && TotalsOf(o).dataChunks + TotalsOf(o).zeroChunks == n
  {
    hide ImageOf, Chunks, ParseFooter, RecordOf;
    var n := o.shape.chunks;
    CreatedEnds(o);
    CreatedPosition(o, n, n);
    CreatedTotals(o, n);
    FooterRoundTrip(n, TotalsOf(o), o.sum);
    var img, p := ImageOf(o), Position(RecordsOf(o, n), n);
    assert img[p..p + FOOTER_SIZE] == img[p..];
  }

  // ---------- restore ----------

  /** The source content the first `n` records stand for. */
  ghost function Content(img: seq<byte>, s: Shape, sum: Checksum, recs: seq<Record>, n: nat): seq<byte>
    requires s.chunkBytes > 0 && n <= |recs| && Parses(img, s, sum, recs)
  {
    if n == 0 then []
    else
      assert ParsesAt(img, s, sum, recs, n - 1);
      Content(img, s, sum, recs, n - 1) + Payload(img, recs, n - 1)
  }

  lemma {:induction false} ContentPrefix(img: seq<byte>, s: Shape, sum: Checksum, a: seq<Record>, b: seq<Record>, n: nat)
    requires s.chunkBytes > 0 && SameFirst(a, b, n) && Parses(img, s, sum, a) && Parses(img, s, sum, b)
    ensures Content(img, s, sum, a, n) == Content(img, s, sum, b, n)
    decreases n
  {
    hide Parses, ParsesAt, Payload, Position;
    if n > 0 {
      ContentPrefix(img, s, sum, a, b, n - 1);
      ContentUnfolds(img, s, sum, a, n - 1);
      ContentUnfolds(img, s, sum, b, n - 1);
      FitsAt(img, s, sum, a, n - 1);
      SamePayload(img, sum, a, b, n - 1);
    }
  }

  /** What create put in comes out. */
  lemma {:induction false} CreatedContent(o: Origin, n: nat)
    requires Valid(o) && n <= o.shape.chunks && Parses(ImageOf(o), o.shape, o.sum, RecordsOf(o, o.shape.chunks))
    ensures Edge(o.shape, n) <= |o.src|
    ensures Content(ImageOf(o), o.shape, o.sum, RecordsOf(o, o.shape.chunks), n) == o.src[..Edge(o.shape, n)]
    decreases n
  {
    hide ImageOf, ParseRecord, ParsesAt, Parses, RecordOf, Payload, Position, Edge;
    ChunkEdges(o.shape, n);
    if n > 0 {
      ChunkEdges(o.shape, n - 1);
      CreatedContent(o, n - 1);
      CreatedPayload(o, n - 1);
      var a, b := Edge(o.shape, n - 1), Edge(o.shape, n);
      assert o.src[..b] == o.src[..a] + o.src[a..b];
    }
  }

  lemma CreatedPayload(o: Origin, i: nat)
    requires Valid(o) && i < o.shape.chunks
    ensures Position(RecordsOf(o, o.shape.chunks), i) + RECORD_SIZE + RecordsOf(o, o.shape.chunks)[i].stored <= |ImageOf(o)|
    ensures Edge(o.shape, i) <= Edge(o.shape, i + 1) <= |o.src|
    ensures Payload(ImageOf(o), RecordsOf(o, o.shape.chunks), i) == o.src[Edge(o.shape, i)..Edge(o.shape, i + 1)]
  {
    hide ImageOf, ParseRecord, Chunks;
    CreatedPosition(o, o.shape.chunks, i);
    CreatedRecordReads(o, i);
    ChunkEdges(o.shape, i);
    var d := DataOf(o, i);
    if IsZero(o, i) { assert d == Zeros(|d|); }
  }

  /** Copying bytes into the target. */
  method WriteAt(target: array<byte>, off: nat, data: seq<byte>)
    requires off + |data| <= target.Length
    modifies target
    ensures forall k :: 0 <= k < target.Length ==> target[k] == if off <= k < off + |data| then data[k - off] else old(target[k])
  {
    for i := 0 to |data|
      invariant forall k :: 0 <= k < target.Length ==> target[k] == if off <= k < off + i then data[k - off] else old(target[k])
    {
      target[off + i] := data[i];
    }
  }

  /** One record of the write pass: the target now holds the content up to the end of this chunk. */
  method RestoreChunk(img: seq<byte>, target: array<byte>, s: Shape, sum: Checksum, pos: nat, i: nat, rec: Record,
                      ghost recs: seq<Record>, ghost all: seq<Record>)
    requires Counted(s) && i < s.chunks && s.sourceBytes <= target.Length && |recs| == i
    requires |all| == i + 1 && SameFirst(recs, all, i) && all[i] == rec
    requires Parses(img, s, sum, recs) && Parses(img, s, sum, all) && pos == Position(recs, i)
    requires rec.offset == Edge(s, i) && rec.length == Edge(s, i + 1) - Edge(s, i) && rec.flags <= 1
    requires (rec.flags == 0 ==> rec.stored == rec.length) && pos + RECORD_SIZE + rec.stored <= |img|
    requires Edge(s, i) <= target.Length && target[..Edge(s, i)] == Content(img, s, sum, recs, i)
    modifies target
    ensures Edge(s, i + 1) <= target.Length && target[..Edge(s, i + 1)] == Content(img, s, sum, all, i + 1)
    ensures forall k :: s.sourceBytes <= k < target.Length ==> target[k] == old(target[k])
  {
    hide Parses, ParsesAt, ParseRecord, Content, Edge, Position;
    ChunkEdges(s, i);
    var data := if rec.flags == 1 then Zeros(rec.length) else img[pos + RECORD_SIZE..pos + RECORD_SIZE + rec.stored];
    ghost var before := target[..Edge(s, i)];
    WriteAt(target, rec.offset, data);
    ContentExtends(img, s, sum, recs, all, i);
    assert target[..Edge(s, i + 1)] == before + data;
  }

  lemma ContentExtends(img: seq<byte>, s: Shape, sum: Checksum, recs: seq<Record>, all: seq<Record>, n: nat)
    requires s.chunkBytes > 0 && n == |recs| < |all| && SameFirst(recs, all, n) && Parses(img, s, sum, recs) && Parses(img, s, sum, all)
    ensures Position(recs, n) + RECORD_SIZE + all[n].stored <= |img|
    ensures Content(img, s, sum, all, n + 1) == Content(img, s, sum, recs, n) + PayloadAt(img, Position(recs, n) + RECORD_SIZE, all[n])
  {
    hide Parses, ParsesAt, Position, Content, PayloadAt;
    PositionPrefix(recs, all, n);
    FitsAt(img, s, sum, all, n);
    ContentPrefix(img, s, sum, recs, all, n);
    ContentUnfolds(img, s, sum, all, n);
  }

  lemma FitsAt(img: seq<byte>, s: Shape, sum: Checksum, recs: seq<Record>, n: nat)
    requires s.chunkBytes > 0 && n < |recs| && Parses(img, s, sum, recs)
    ensures Position(recs, n) + RECORD_SIZE + recs[n].stored <= |img|
  {
    hide ParseRecord;
    assert ParsesAt(img, s, sum, recs, n);
  }

  lemma ContentUnfolds(img: seq<byte>, s: Shape, sum: Checksum, recs: seq<Record>, n: nat)
    requires s.chunkBytes > 0 && n < |recs| && Parses(img, s, sum, recs)
    ensures ParsesAt(img, s, sum, recs, n)
    ensures Content(img, s, sum, recs, n + 1) == Content(img, s, sum, recs, n) + Payload(img, recs, n)
  {
    hide ParseRecord;
  }

  /**
   restore. Bytes past the source size are never touched; a refusal before the write pass touches
   nothing; success leaves exactly the content of the image, which for an image made by create is
   the source. Its read-back comparison cannot fail on a device that keeps what is written.
   */
  method Restore(img: seq<byte>, target: array<byte>, sum: Checksum, ghost o: Origin) returns (r: Result<Walked>, ghost recs: seq<Record>)
    modifies target
    ensures HeaderOf(img, sum).Err? || r == Err(TargetTooSmall) || r == Err(Incomplete) ==> target[..] == old(target[..])
    ensures HeaderOf(img, sum).Ok? ==> forall k :: HeaderOf(img, sum).value.shape.sourceBytes <= k < target.Length ==> target[k] == old(target[k])
    ensures r.Ok? ==> Counted(r.value.shape) && Checked(img, r.value.shape, sum, recs, true) && |recs| == r.value.shape.chunks
    ensures r.Ok? ==> r.value.shape.sourceBytes <= target.Length && target[..r.value.shape.sourceBytes] == Content(img, r.value.shape, sum, recs, |recs|)
    ensures r != Err(Mismatch)
    ensures MadeFrom(img, sum, o) && SectorOk(o.shape.sector) && |o.src| <= target.Length ==> r == Ok(Walked(o.shape, TotalsOf(o))) || r == Err(Cancelled)
    ensures MadeFrom(img, sum, o) && r.Ok? ==> |o.src| <= target.Length && target[..|o.src|] == o.src
  {
    hide SectorOk, ParseHeader, ParseFooter, ImageOf, Checked, RecordOf, TotalsOf, Edge, Matches;
    recs := [];
    ghost var made := MadeFrom(img, sum, o);
    if made { MadeHeader(img, sum, o); }
    HeaderCounted(img, sum);
    var h := HeaderOf(img, sum);
    if h.Err? { return Err(h.why), recs; }
    var s := h.value.shape;
    if !h.value.complete { return Err(Incomplete), recs; }
    if target.Length < s.sourceBytes { return Err(TargetTooSmall), recs; }
    var ok: Result<nat>;
    ok, recs := WritePass(img, target, s, sum, o);
    if ok.Err? { return Err(ok.why), recs; }
    var pos := ok.value;
    if made { MadeFooter(o); }
    if pos + FOOTER_SIZE > |img| { return Err(Truncated), recs; }
    var f := ParseFooter(img[pos..pos + FOOTER_SIZE], s.chunks, sum);
    FooterTotals(img[pos..pos + FOOTER_SIZE], s.chunks, sum);
    if f.Err? { return Err(f.why), recs; }
    forall i | 0 <= i < |recs| ensures Matches(target[..], sum, recs[i]) {
      assert target[..][..s.sourceBytes] == target[..s.sourceBytes];
      ContentMatches(img, target[..], s, sum, recs, i);
    }
    var same := ReadBack(img, target, s, sum, recs);
    if same.Err? { return Err(same.why), recs; }
    if made { MadeContent(img, s, sum, o, recs); }
    r := Ok(Walked(s, f.value));
  }

  lemma MadeContent(img: seq<byte>, s: Shape, sum: Checksum, o: Origin, recs: seq<Record>)
    requires MadeFrom(img, sum, o) && s == o.shape && recs == RecordsOf(o, s.chunks) && Checked(img, s, sum, recs, true)
    ensures Parses(img, s, sum, recs) && Content(img, s, sum, recs, |recs|) == o.src
  {
    hide ImageOf, RecordOf, ParsesAt;
    CreatedContent(o, s.chunks);
    ChunkEdges(s, s.chunks);
    assert o.src[..|o.src|] == o.src;
  }

  lemma CheckedParses(img: seq<byte>, s: Shape, sum: Checksum, recs: seq<Record>)
    requires s.chunkBytes > 0 && Checked(img, s, sum, recs, true)
    ensures Parses(img, s, sum, recs)
  {
  }

  lemma ContentNone(img: seq<byte>, s: Shape, sum: Checksum)
    requires s.chunkBytes > 0
    ensures Parses(img, s, sum, []) && Content(img, s, sum, [], 0) == []
  {
  }

  /** One iteration of the write pass. */
  method WriteChunk(img: seq<byte>, target: array<byte>, s: Shape, sum: Checksum, pos: nat, i: nat, ghost recs: seq<Record>, ghost o: Origin)
    returns (r: Result<Record>)
    requires Counted(s) && i < s.chunks && |recs| == i && s.sourceBytes <= target.Length && pos == Position(recs, i)
    requires Checked(img, s, sum, recs, true) && Parses(img, s, sum, recs)
    requires Edge(s, i) <= target.Length && target[..Edge(s, i)] == Content(img, s, sum, recs, i)
    modifies target
    ensures forall k :: s.sourceBytes <= k < target.Length ==> target[k] == old(target[k])
    ensures r.Err? ==> Ordinary(r.why)
    ensures r.Ok? ==> Checked(img, s, sum, recs + [r.value], true) && Parses(img, s, sum, recs + [r.value])
    ensures r.Ok? ==> Position(recs + [r.value], i + 1) == pos + RECORD_SIZE + r.value.stored
    ensures r.Ok? ==> Edge(s, i + 1) <= target.Length && target[..Edge(s, i + 1)] == Content(img, s, sum, recs + [r.value], i + 1)
    ensures MadeFrom(img, sum, o) && s == o.shape && recs == RecordsOf(o, i) ==> r == Ok(RecordOf(o, i))
  {
    hide ImageOf, Checked, RecordOf, Parses, Edge, Content, Position, RecordsOf, Lies;
    ghost var made := MadeFrom(img, sum, o) && s == o.shape && recs == RecordsOf(o, i);
    hide MadeFrom;
    if made { MadeReads(img, s, sum, o, i, true); }
    r := ReadChunk(img, s, sum, pos, i, 0, true, recs);
    if r.Err? { return; }
    CheckedParses(img, s, sum, recs + [r.value]);
    ghost var all := recs + [r.value];
    RestoreChunk(img, target, s, sum, pos, i, r.value, recs, all);
  }

  method WritePass(img: seq<byte>, target: array<byte>, s: Shape, sum: Checksum, ghost o: Origin) returns (r: Result<nat>, ghost recs: seq<Record>)
    requires Counted(s) && s.sourceBytes <= target.Length
    modifies target
    ensures forall k :: s.sourceBytes <= k < target.Length ==> target[k] == old(target[k])
    ensures r.Ok? ==> Checked(img, s, sum, recs, true) && |recs| == s.chunks && r.value == Position(recs, |recs|)
    ensures r.Ok? ==> Parses(img, s, sum, recs) && target[..s.sourceBytes] == Content(img, s, sum, recs, |recs|)
    ensures r != Err(Mismatch) && r != Err(TargetTooSmall) && r != Err(Incomplete)
    ensures MadeFrom(img, sum, o) && s == o.shape ==> r == Err(Cancelled) || (r.Ok? && recs == RecordsOf(o, s.chunks))
  {
    ContentNone(img, s, sum);
    hide ImageOf, Checked, RecordOf, Parses, Edge, Content;
    recs := [];
    var pos := HEADER_SIZE;
    NothingChecked(img, s, sum, true);
    CheckedParses(img, s, sum, recs);
    ChunkEdges(s, 0);
    for i := 0 to s.chunks
      invariant |recs| == i && Checked(img, s, sum, recs, true) && Parses(img, s, sum, recs) && pos == Position(recs, i)
      invariant Edge(s, i) <= target.Length && target[..Edge(s, i)] == Content(img, s, sum, recs, i)
      invariant forall k :: s.sourceBytes <= k < target.Length ==> target[k] == old(target[k])
      invariant MadeFrom(img, sum, o) && s == o.shape ==> recs == RecordsOf(o, i)
    {
      var cancel := *;
      if cancel { return Err(Cancelled), recs; }
      var rec := WriteChunk(img, target, s, sum, pos, i, recs, o);
      if rec.Err? { return Err(rec.why), recs; }
      if MadeFrom(img, sum, o) && s == o.shape { RecordsMore(o, i); }
      recs := recs + [rec.value];
      pos := pos + RECORD_SIZE + rec.value.stored;
    }
    ChunkEdges(s, s.chunks);
    r := Ok(pos);
  }

  lemma PayloadLength(img: seq<byte>, s: Shape, sum: Checksum, recs: seq<Record>, i: nat)
    requires Counted(s) && i < |recs| <= s.chunks && Parses(img, s, sum, recs)
    ensures ParsesAt(img, s, sum, recs, i) && |Payload(img, recs, i)| == Edge(s, i + 1) - Edge(s, i)
    ensures recs[i].offset == Edge(s, i) && recs[i].length == Edge(s, i + 1) - Edge(s, i) && recs[i].flags <= 1
  {
    hide ParseRecord;
    assert ParsesAt(img, s, sum, recs, i);
    var p := Position(recs, i);
    RecordBounds(img[p..p + RECORD_SIZE], s, i, sum);
  }

  lemma {:induction false} ContentLength(img: seq<byte>, s: Shape, sum: Checksum, recs: seq<Record>, n: nat)
    requires Counted(s) && n <= |recs| <= s.chunks && Parses(img, s, sum, recs)
    ensures |Content(img, s, sum, recs, n)| == Edge(s, n)
    decreases n
  {
    hide Parses, ParsesAt, Payload;
    ChunkEdges(s, n);
    if n > 0 {
      ContentLength(img, s, sum, recs, n - 1);
      PayloadLength(img, s, sum, recs, n - 1);
    }
  }

  lemma {:induction false} ContentSlice(img: seq<byte>, s: Shape, sum: Checksum, recs: seq<Record>, i: nat, n: nat)
    requires Counted(s) && i < n <= |recs| <= s.chunks && Parses(img, s, sum, recs)
    ensures ParsesAt(img, s, sum, recs, i) && Edge(s, i) <= Edge(s, i + 1) <= |Content(img, s, sum, recs, n)|
    ensures Content(img, s, sum, recs, n)[Edge(s, i)..Edge(s, i + 1)] == Payload(img, recs, i)
    decreases n
  {
    hide Parses, ParsesAt, Payload;
    ChunkEdges(s, i);
    PayloadLength(img, s, sum, recs, i);
    ContentLength(img, s, sum, recs, n);
    ContentLength(img, s, sum, recs, n - 1);
    if i < n - 1 {
      ContentSlice(img, s, sum, recs, i, n - 1);
      var c, d := Content(img, s, sum, recs, n - 1), Content(img, s, sum, recs, n);
      assert c == d[..|c|];
      assert d[Edge(s, i)..Edge(s, i + 1)] == c[Edge(s, i)..Edge(s, i + 1)];
    }
  }

  /** The target's bytes of record `i` pass the comparison: all zero, or with the payload's checksum. */
  predicate Matches(target: seq<byte>, sum: Checksum, rec: Record) {
    && rec.offset + rec.length <= |target|
    && var span := target[rec.offset..rec.offset + rec.length];
       if rec.flags == 1 then AllZeros(span) else sum(span) == rec.payloadSum
  }

  /** The read-back pass over the records, from the start of the image again: it finds a mismatch exactly when there is one. */
  method ReadBack(img: seq<byte>, target: array<byte>, s: Shape, sum: Checksum, ghost recs: seq<Record>) returns (r: Result<nat>)
    requires Counted(s) && Parses(img, s, sum, recs) && |recs| == s.chunks && s.sourceBytes <= target.Length
    ensures r.Ok? || r == Err(Cancelled) || r == Err(Mismatch)
    ensures r.Ok? ==> forall i :: 0 <= i < |recs| ==> Matches(target[..], sum, recs[i])
    ensures r == Err(Mismatch) ==> exists i :: 0 <= i < |recs| && !Matches(target[..], sum, recs[i])
  {
    hide ParseRecord, Parses, Matches, Position;
    StartPosition();
    PositionPrefix([], recs, 0);
    var pos := HEADER_SIZE;
    for i := 0 to s.chunks
      invariant pos == Position(recs, i)
      invariant forall k :: 0 <= k < i ==> Matches(target[..], sum, recs[k])
    {
      var cancel := *;
      if cancel { return Err(Cancelled); }
      r := CompareChunk(img, target, s, sum, pos, i, recs);
      if r.Err? { return; }
      pos := r.value;
    }
    r := Ok(pos);
  }

  /** One record of the read-back pass. */
  method CompareChunk(img: seq<byte>, target: array<byte>, s: Shape, sum: Checksum, pos: nat, i: nat, ghost recs: seq<Record>) returns (r: Result<nat>)
    requires Counted(s) && i < |recs| == s.chunks && s.sourceBytes <= target.Length && Parses(img, s, sum, recs) && pos == Position(recs, i)
    ensures r == if Matches(target[..], sum, recs[i]) then Ok(Position(recs, i + 1)) else Err(Mismatch)
  {
    hide ParseRecord, Parses, Edge, CeilDiv;
    ChunkEdges(s, i);
    PayloadLength(img, s, sum, recs, i);
    var rec := ParseRecord(img[pos..pos + RECORD_SIZE], s, i, sum);
    var span := target[rec.value.offset..rec.value.offset + rec.value.length];
    assert span == target[..][rec.value.offset..rec.value.offset + rec.value.length];
    if rec.value.flags == 1 {
      var zero := AllZero(span);
      if !zero { return Err(Mismatch); }
    } else if sum(span) != rec.value.payloadSum {
      return Err(Mismatch);
    }
    r := Ok(pos + RECORD_SIZE + rec.value.stored);
  }

  /** A target that holds the content of a checked image matches it. */
  lemma ContentMatches(img: seq<byte>, target: seq<byte>, s: Shape, sum: Checksum, recs: seq<Record>, i: nat)
    requires Counted(s) && Checked(img, s, sum, recs, true) && i < |recs| == s.chunks && s.sourceBytes <= |target|
    requires Parses(img, s, sum, recs) && target[..s.sourceBytes] == Content(img, s, sum, recs, |recs|)
    ensures Matches(target, sum, recs[i])
  {
    hide ParseRecord, Parses, Checked, Edge, Content, CeilDiv, Position;
    ChunkEdges(s, i);
    PayloadLength(img, s, sum, recs, i);
    ContentSlice(img, s, sum, recs, i, |recs|);
    CheckedAt(img, s, sum, recs, i);
    var span := target[recs[i].offset..recs[i].offset + recs[i].length];
    assert span == target[..s.sourceBytes][Edge(s, i)..Edge(s, i + 1)];
  }

  lemma CheckedAt(img: seq<byte>, s: Shape, sum: Checksum, recs: seq<Record>, i: nat)
    requires s.chunkBytes > 0 && i < |recs| && Checked(img, s, sum, recs, true)
    ensures ParsesAt(img, s, sum, recs, i) && PayloadOk(img, sum, recs, i)
  {
    hide ParseRecord;
  }
}
