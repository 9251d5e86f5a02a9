/**
 Runs of blocks: the run-length allocation map of src/ext4/allocation.cpp and the searches on it in
 src/ext4/relocate.cpp and src/ext4/verify.cpp.
 */
module Runs {
  import opened Arithmetic
  import opened CommitDisk

  datatype BlockExtent = BlockExtent(start: nat, length: nat)

  function End(e: BlockExtent): nat { e.start + e.length }

  predicate InExtent(e: BlockExtent, b: nat) { e.start <= b < End(e) }

  /** Some run holds the block. */
  predicate Covers(es: seq<BlockExtent>, b: nat) {
    exists i :: 0 <= i < |es| && InExtent(es[i], b)
  }

  /** Sorted, disjoint, nonempty and maximal: between two runs there is a gap. */
  predicate Separated(es: seq<BlockExtent>) {
    && (forall i :: 0 <= i < |es| ==> es[i].length > 0)
    && (forall i, j :: 0 <= i < j < |es| ==> End(es[i]) < es[j].start)
  }

  lemma CoversAppend(es: seq<BlockExtent>, e: BlockExtent, b: nat)
    ensures Covers(es + [e], b) <==> Covers(es, b) || InExtent(e, b)
  {
    var all := es + [e];
    if Covers(es, b) {
      var i :| 0 <= i < |es| && InExtent(es[i], b);
      assert all[i] == es[i];
    }
    if InExtent(e, b) { assert all[|es|] == e; }
  }

  // ---------- building the map ----------

  /** The bit of a block in its group's bitmap; bits past a bitmap's end read as clear. */
  predicate BitOf(geo: Geometry, bitmaps: seq<seq<bool>>, b: nat)
    requires GeometryOk(geo)
  {
    b >= geo.firstData &&
    var g, i := (b - geo.firstData) / geo.perGroup, (b - geo.firstData) % geo.perGroup;
    g < |bitmaps| && BitSet(bitmaps[g], i)
  }

  predicate BitSet(bitmap: seq<bool>, i: nat) { i < |bitmap| && bitmap[i] }

  lemma MarkedAt(geo: Geometry, bitmaps: seq<seq<bool>>, g: nat, i: nat)
    requires GeometryOk(geo) && g < |bitmaps| && i < geo.perGroup
    ensures BitOf(geo, bitmaps, GroupStart(geo, g) + i) == BitSet(bitmaps[g], i)
  {
    DivMod(g, geo.perGroup, i);
  }

  /** How many blocks of [lo, hi) have the given bit. */
  function CountBits(geo: Geometry, bitmaps: seq<seq<bool>>, used: bool, lo: nat, hi: nat): nat
    requires GeometryOk(geo) && lo <= hi
    decreases hi
  {
    if lo == hi then 0
    else CountBits(geo, bitmaps, used, lo, hi - 1) + if BitOf(geo, bitmaps, hi - 1) == used then 1 else 0
  }

  lemma CountNext(geo: Geometry, bitmaps: seq<seq<bool>>, b: nat)
    requires GeometryOk(geo) && geo.firstData <= b
    ensures CountBits(geo, bitmaps, true, geo.firstData, b + 1)
      == CountBits(geo, bitmaps, true, geo.firstData, b) + if BitOf(geo, bitmaps, b) then 1 else 0
    ensures CountBits(geo, bitmaps, false, geo.firstData, b + 1)
      == CountBits(geo, bitmaps, false, geo.firstData, b) + if BitOf(geo, bitmaps, b) then 0 else 1
  {
  }

  /** Runs of one kind written so far cover exactly the blocks of that kind in [lo, hi). */
  ghost predicate Encodes(geo: Geometry, bitmaps: seq<seq<bool>>, used: bool, es: seq<BlockExtent>, lo: nat, hi: nat)
    requires GeometryOk(geo)
  {
    && Separated(es)
    && (forall i :: 0 <= i < |es| ==> End(es[i]) <= hi)
    && (forall b: nat :: Covers(es, b) <==> lo <= b < hi && BitOf(geo, bitmaps, b) == used)
  }

  class RunEncoder {
    const geo: Geometry
    const bitmaps: seq<seq<bool>>
    var usedRuns: seq<BlockExtent>
    var freeRuns: seq<BlockExtent>
    var allocatedBlocks: nat
    var freeBlocks: nat
    var haveState: bool
    var currentUsed: bool
    var runStart: nat
    var runLen: nat

    constructor (geo: Geometry, bitmaps: seq<seq<bool>>)
      requires GeometryOk(geo)
      ensures this.geo == geo && this.bitmaps == bitmaps && At(geo.firstData)
    {
      this.geo, this.bitmaps := geo, bitmaps;
      usedRuns, freeRuns, allocatedBlocks, freeBlocks := [], [], 0, 0;
      haveState, currentUsed, runStart, runLen := false, false, 0, 0;
    }

    /** Everything below `pos` is encoded, except the open run that ends there. */
    ghost predicate At(pos: nat)
      reads this
    {
      && GeometryOk(geo) && geo.firstData <= pos
      && allocatedBlocks == CountBits(geo, bitmaps, true, geo.firstData, pos)
      && freeBlocks == CountBits(geo, bitmaps, false, geo.firstData, pos)
      && if haveState then
           && 0 < runLen && runStart + runLen == pos && geo.firstData <= runStart
           && Encodes(geo, bitmaps, true, usedRuns, geo.firstData, runStart)
           && Encodes(geo, bitmaps, false, freeRuns, geo.firstData, runStart)
           && (forall i :: 0 <= i < |usedRuns| && currentUsed ==> End(usedRuns[i]) < runStart)
           && (forall i :: 0 <= i < |freeRuns| && !currentUsed ==> End(freeRuns[i]) < runStart)
           && (forall b :: runStart <= b < pos ==> BitOf(geo, bitmaps, b) == currentUsed)
         else pos == geo.firstData && usedRuns == freeRuns == []
    }

    method FlushRun(ghost pos: nat)
      requires At(pos)
      modifies this`usedRuns, this`freeRuns
      ensures Encodes(geo, bitmaps, true, usedRuns, geo.firstData, pos)
      ensures Encodes(geo, bitmaps, false, freeRuns, geo.firstData, pos)
      ensures forall i :: 0 <= i < |usedRuns| && haveState && !currentUsed ==> End(usedRuns[i]) < pos
      ensures forall i :: 0 <= i < |freeRuns| && haveState && currentUsed ==> End(freeRuns[i]) < pos
    {
      if !haveState || runLen == 0 { return; }
      if currentUsed {
        AppendEncodes(geo, bitmaps, true, usedRuns, runStart, runLen);
        SkipEncodes(geo, bitmaps, false, freeRuns, runStart, runLen);
        usedRuns := AppendRun(usedRuns, runStart, runLen);
      } else {
        AppendEncodes(geo, bitmaps, false, freeRuns, runStart, runLen);
        SkipEncodes(geo, bitmaps, true, usedRuns, runStart, runLen);
        freeRuns := AppendRun(freeRuns, runStart, runLen);
      }
    }

    method Take(used: bool, block: nat)
      requires At(block) && used == BitOf(geo, bitmaps, block)
      modifies this
      ensures At(block + 1)
    {
      hide Encodes, BitOf, CountBits;
      CountNext(geo, bitmaps, block);
      if !haveState {
        OpenEncodes(geo, bitmaps);
        haveState, currentUsed, runStart, runLen := true, used, block, 1;
      } else if used == currentUsed && runStart + runLen == block {
        runLen := runLen + 1;
      } else {
        FlushRun(block);
        currentUsed, runStart, runLen := used, block, 1;
      }
      if used { allocatedBlocks := allocatedBlocks + 1; } else { freeBlocks := freeBlocks + 1; }
    }
  }

  /** append_run. */
  function AppendRun(es: seq<BlockExtent>, start: nat, length: nat): seq<BlockExtent> {
    if length == 0 then es
    else if es != [] && End(es[|es| - 1]) == start then
      es[|es| - 1 := es[|es| - 1].(length := es[|es| - 1].length + length)]
    else es + [BlockExtent(start, length)]
  }

  lemma OpenEncodes(geo: Geometry, bitmaps: seq<seq<bool>>)
    requires GeometryOk(geo)
    ensures forall used :: Encodes(geo, bitmaps, used, [], geo.firstData, geo.firstData)
  {
  }

  lemma AppendEncodes(geo: Geometry, bitmaps: seq<seq<bool>>, used: bool, es: seq<BlockExtent>, start: nat, n: nat)
    requires GeometryOk(geo) && n > 0 && geo.firstData <= start
    requires Encodes(geo, bitmaps, used, es, geo.firstData, start)
    requires forall i :: 0 <= i < |es| ==> End(es[i]) < start
    requires forall b :: start <= b < start + n ==> BitOf(geo, bitmaps, b) == used
    ensures Encodes(geo, bitmaps, used, AppendRun(es, start, n), geo.firstData, start + n)
  {
    hide BitOf;
    var e := BlockExtent(start, n);
    assert AppendRun(es, start, n) == es + [e];
    forall b: nat ensures Covers(es + [e], b) <==> geo.firstData <= b < start + n && BitOf(geo, bitmaps, b) == used {
      CoversAppend(es, e, b);
    }
  }

  lemma SkipEncodes(geo: Geometry, bitmaps: seq<seq<bool>>, used: bool, es: seq<BlockExtent>, start: nat, n: nat)
    requires GeometryOk(geo) && geo.firstData <= start
    requires Encodes(geo, bitmaps, used, es, geo.firstData, start)
    requires forall b :: start <= b < start + n ==> BitOf(geo, bitmaps, b) != used
    ensures Encodes(geo, bitmaps, used, es, geo.firstData, start + n)
  {
    hide BitOf;
  }

  datatype Graph = Graph(usedRuns: seq<BlockExtent>, freeRuns: seq<BlockExtent>, allocatedBlocks: nat, freeBlocks: nat)

  /** The bits of one group. */
  method EncodeGroup(enc: RunEncoder, g: nat)
    requires GeometryOk(enc.geo) && g < |enc.bitmaps| == Groups(enc.geo) && enc.At(GroupEdge(enc.geo, g))
    modifies enc
    ensures enc.At(GroupEdge(enc.geo, g + 1))
  {
    hide CountBits, Encodes, BitOf, Groups, RunEncoder.At;
    var geo := enc.geo;
    GroupsTile(geo, g);
    var count := GroupCount(geo, g);
    for i := 0 to count
      invariant enc.At(GroupStart(geo, g) + i)
    {
      MarkedAt(geo, enc.bitmaps, g, i);
      enc.Take(BitSet(enc.bitmaps[g], i), GroupStart(geo, g) + i);
    }
  }

  /**
   build_allocation_graph: a sorted, disjoint, maximal run encoding of the group bitmaps over exactly
   the filesystem's data blocks, with the number of blocks of each kind.
   */
  method BuildAllocationGraph(geo: Geometry, bitmaps: seq<seq<bool>>) returns (r: Graph)
    requires GeometryOk(geo) && |bitmaps| == Groups(geo)
    ensures Encodes(geo, bitmaps, true, r.usedRuns, geo.firstData, geo.blocks)
    ensures Encodes(geo, bitmaps, false, r.freeRuns, geo.firstData, geo.blocks)
    ensures r.allocatedBlocks == CountBits(geo, bitmaps, true, geo.firstData, geo.blocks)
    ensures r.freeBlocks == CountBits(geo, bitmaps, false, geo.firstData, geo.blocks)
  {
    hide CountBits, BitOf;
    var enc := new RunEncoder(geo, bitmaps);
    GroupsTile(geo, 0);
    for g := 0 to |bitmaps|
      invariant enc.geo == geo && enc.bitmaps == bitmaps
      invariant enc.At(GroupEdge(geo, g))
    {
      hide Groups;
      EncodeGroup(enc, g);
    }
    GroupsTile(geo, |bitmaps|);
    OpenEncodes(geo, bitmaps);
    enc.FlushRun(geo.blocks);
    r := Graph(enc.usedRuns, enc.freeRuns, enc.allocatedBlocks, enc.freeBlocks);
  }

  /** Where group `g` begins, or the end of the filesystem. */
  function GroupEdge(geo: Geometry, g: nat): nat {
    var s := GroupStart(geo, g);
    if s < geo.blocks then s else geo.blocks
  }

  /** The groups follow one another without gaps and end with the filesystem. */
  lemma GroupsTile(geo: Geometry, g: nat)
    requires GeometryOk(geo)
    ensures g == 0 ==> GroupEdge(geo, g) == geo.firstData
    ensures g < Groups(geo) ==> GroupEdge(geo, g) == GroupStart(geo, g) && GroupCount(geo, g) <= geo.perGroup
    ensures g < Groups(geo) ==> GroupEdge(geo, g + 1) == GroupStart(geo, g) + GroupCount(geo, g)
    ensures g >= Groups(geo) ==> GroupEdge(geo, g) == geo.blocks
  {
    var data, d := geo.blocks - geo.firstData, geo.perGroup;
    var n := Groups(geo);
    assert data == (data / d) * d + data % d;
    if g < n {
      assert g <= data / d;
      assert g * d <= (data / d) * d by { Monotone(g, data / d, d); }
      if g == data / d { assert data % d != 0; } else { Monotone(g + 1, data / d, d); }
      assert (g + 1) * d == g * d + d;
    } else {
      Monotone(n, g, d);
      if data % d != 0 { assert n * d == (data / d) * d + d; }
    }
  }

  // ---------- searching it ----------

  /** std::lower_bound for the first run that ends after `b`. */
  method FirstEndingAfter(es: seq<BlockExtent>, b: nat) returns (k: nat)
    requires forall i, j :: 0 <= i < j < |es| ==> End(es[i]) <= End(es[j])
    ensures k <= |es|
    ensures forall i :: 0 <= i < k ==> End(es[i]) <= b
    ensures forall i :: k <= i < |es| ==> b < End(es[i])
  {
    var lo, hi := 0, |es|;
    while lo < hi
      invariant 0 <= lo <= hi <= |es|
      invariant forall i :: 0 <= i < lo ==> End(es[i]) <= b
      invariant forall i :: hi <= i < |es| ==> b < End(es[i])
    {
      var mid := (lo + hi) / 2;
      if End(es[mid]) <= b { lo := mid + 1; } else { hi := mid; }
    }
    k := lo;
  }

  /** range_fully_allocated and fully_allocated agree with the per-block definition. */
  method FullyAllocated(es: seq<BlockExtent>, start: nat, length: nat) returns (r: bool)
    requires Separated(es) && start <= MAX64 && length <= MAX64
    requires forall i :: 0 <= i < |es| ==> End(es[i]) <= MAX64
    ensures r <==> forall b :: start <= b < start + length ==> Covers(es, b)
  {
    if length == 0 { return true; }
    if length > MAX64 - start {
      assert start <= MAX64 < start + length && !Covers(es, MAX64);
      return false;
    }
    var end := start + length;
    var k := FirstEndingAfter(es, start);
    var covered := start;
    while k < |es| && es[k].start <= covered
      invariant start <= covered < end && k <= |es|
      invariant forall i :: 0 <= i < k ==> End(es[i]) <= covered
      invariant forall i :: k <= i < |es| ==> covered < End(es[i])
      invariant forall b :: start <= b < covered ==> Covers(es, b)
      decreases |es| - k
    {
      assert forall b :: covered <= b < End(es[k]) ==> InExtent(es[k], b);
      if End(es[k]) > covered { covered := End(es[k]); }
      if covered >= end { return true; }
      k := k + 1;
    }
    assert !Covers(es, covered);
    r := false;
  }

  // ---------- overlaps ----------

  datatype Span = Span(start: nat, end: nat, inode: nat, tree: bool)

  predicate InSpan(s: Span, b: nat) { s.start <= b < s.end }

  predicate Meets(a: Span, b: Span) { a.start < b.end && b.start < a.end }

  /** For nonempty spans, meeting is sharing a block. */
  lemma MeetsShares(a: Span, b: Span)
    requires a.start < a.end && b.start < b.end
    ensures Meets(a, b) <==> exists x :: InSpan(a, x) && InSpan(b, x)
  {
    if Meets(a, b) {
      var x := if a.start < b.start then b.start else a.start;
      assert InSpan(a, x) && InSpan(b, x);
    }
  }

  predicate Disjoint(rs: seq<Span>) {
    forall i, j :: 0 <= i < j < |rs| ==> !Meets(rs[i], rs[j])
  }

  predicate Proper(rs: seq<Span>) { forall i :: 0 <= i < |rs| ==> rs[i].start <= rs[i].end }

  /** The comparison both sorts use, up to the tie breakers. */
  predicate Less(a: Span, b: Span) {
    if a.start != b.start then a.start < b.start
    else if a.end != b.end then a.end < b.end
    else if a.inode != b.inode then a.inode < b.inode
    else !a.tree && b.tree
  }

  predicate Sorted(rs: seq<Span>) {
    forall i, j :: 0 <= i < j < |rs| ==> !Less(rs[j], rs[i])
  }

  method SortSpans(rs: seq<Span>) returns (s: seq<Span>)
    ensures multiset(s) == multiset(rs) && Sorted(s)
  {
    s := [];
    for i := 0 to |rs|
      invariant multiset(s) == multiset(rs[..i]) && Sorted(s)
    {
      var pos := |s|;
      while pos > 0 && Less(rs[i], s[pos - 1])
        invariant 0 <= pos <= |s|
        invariant forall k :: pos <= k < |s| ==> Less(rs[i], s[k])
      {
        pos := pos - 1;
      }
      InsertSorted(s, pos, rs[i]);
      InsertMultiset(s, pos, rs[i]);
      s := s[..pos] + [rs[i]] + s[pos..];
      assert rs[..i + 1] == rs[..i] + [rs[i]];
    }
    assert rs[..|rs|] == rs;
  }

  lemma InsertMultiset<T>(s: seq<T>, pos: nat, x: T)
    requires pos <= |s|
    ensures multiset(s[..pos] + [x] + s[pos..]) == multiset(s) + multiset{x}
  {
    assert s == s[..pos] + s[pos..];
  }

  lemma InsertSorted(s: seq<Span>, pos: nat, x: Span)
    requires pos <= |s| && Sorted(s)
    requires forall k :: pos <= k < |s| ==> Less(x, s[k])
    requires pos > 0 ==> !Less(x, s[pos - 1])
    ensures Sorted(s[..pos] + [x] + s[pos..])
  {
    var r := s[..pos] + [x] + s[pos..];
    forall i, j | 0 <= i < j < |r| ensures !Less(r[j], r[i]) {
      if j == pos {
        assert r[i] == s[i];
        if i < pos - 1 { assert !Less(s[pos - 1], s[i]); }
      } else if i == pos {
        assert r[j] == s[j - 1];
      } else {
        assert r[i] == s[if i < pos then i else i - 1] && r[j] == s[if j < pos then j else j - 1];
      }
    }
  }

  /** In sorted order, disjoint means that every span starts after all earlier ones end. */
  lemma SortedDisjoint(rs: seq<Span>)
    requires Sorted(rs) && Proper(rs)
    ensures Disjoint(rs) <==> forall i, j :: 0 <= i < j < |rs| ==> rs[i].end <= rs[j].start
  {
    if Disjoint(rs) {
      forall i, j | 0 <= i < j < |rs| ensures rs[i].end <= rs[j].start {
        assert !Less(rs[j], rs[i]) && !Meets(rs[i], rs[j]);
      }
    }
  }

  /** Disjointness does not depend on the order. */
  lemma DisjointPermuted(a: seq<Span>, b: seq<Span>)
    requires multiset(a) == multiset(b) && Disjoint(a)
    ensures Disjoint(b)
  {
    forall i, j | 0 <= i < j < |b| ensures !Meets(b[i], b[j]) {
      TwoPlaces(a, b, i, j);
    }
  }

  lemma TwoPlaces(a: seq<Span>, b: seq<Span>, i: nat, j: nat)
    requires multiset(a) == multiset(b) && i < j < |b| && Disjoint(a)
    ensures !Meets(b[i], b[j])
  {
    var x, y := b[i], b[j];
    hide Meets;
    assert x in multiset(b) && y in multiset(b);
    assert x in a && y in a;
    var p :| 0 <= p < |a| && a[p] == x;
    var q :| 0 <= q < |a| && a[q] == y;
    if p == q {
      Twice(b, i, j);
      q := Another(a, p);
    }
    assert !Meets(a[if p < q then p else q], a[if p < q then q else p]);
    MeetsSymmetric(x, y);
  }

  lemma MeetsSymmetric(a: Span, b: Span)
    ensures Meets(a, b) <==> Meets(b, a)
  {
  }

  lemma Twice(b: seq<Span>, i: nat, j: nat)
    requires i < j < |b| && b[i] == b[j]
    ensures multiset(b)[b[i]] >= 2
  {
    assert b == b[..j] + b[j..];
    assert b[i] in b[..j] && b[i] in b[j..] by { assert b[..j][i] == b[i] && b[j..][0] == b[j]; }
  }

  lemma Another(a: seq<Span>, p: nat) returns (q: nat)
    requires p < |a| && multiset(a)[a[p]] >= 2
    ensures q < |a| && q != p && a[q] == a[p]
  {
    var x := a[p];
    var rest := a[..p] + a[p + 1..];
    assert a == a[..p] + [x] + a[p + 1..];
    assert multiset(a) == multiset(rest) + multiset{x};
    assert x in multiset(rest);
    assert x in rest;
    var k :| 0 <= k < |rest| && rest[k] == x;
    q := if k < p then k else k + 1;
  }

  /** count_overlaps is zero exactly when the spans are pairwise disjoint. */
  method CountOverlaps(rs: seq<Span>) returns (n: nat)
    requires Proper(rs)
    ensures n == 0 <==> Disjoint(rs)
  {
    if rs == [] { return 0; }
    var s := SortSpans(rs);
    SortedFacts(rs, s);
    n := 0;
    var furthest := s[0].end;
    for i := 1 to |s|
      invariant exists k :: 0 <= k < i && s[k].end == furthest
      invariant forall k :: 0 <= k < i ==> s[k].end <= furthest
      invariant n == 0 <==> forall j, k :: 0 <= j < k < i ==> s[j].end <= s[k].start
    {
      if s[i].start < furthest { n := n + 1; }
      if s[i].end > furthest { furthest := s[i].end; }
    }
  }

  lemma SortedFacts(rs: seq<Span>, s: seq<Span>)
    requires multiset(s) == multiset(rs) && Sorted(s) && Proper(rs)
    ensures |s| == |rs| && Proper(s)
    ensures Disjoint(rs) <==> forall i, j :: 0 <= i < j < |s| ==> s[i].end <= s[j].start
  {
    assert |multiset(s)| == |s| && |multiset(rs)| == |rs|;
    forall i | 0 <= i < |s| ensures s[i].start <= s[i].end {
      assert s[i] in multiset(s);
      assert s[i] in rs;
    }
    SortedDisjoint(s);
    if Disjoint(rs) { DisjointPermuted(rs, s); }
    if Disjoint(s) { DisjointPermuted(s, rs); }
  }

  /** validate_owner_ranges looks at neighbours only, which is enough. */
  method ValidateOwnerRanges(rs: seq<Span>) returns (ok: bool)
    requires Proper(rs)
    ensures ok <==> Disjoint(rs)
  {
    var s := SortSpans(rs);
    SortedFacts(rs, s);
    var i := 1;
    while i < |s|
      invariant 1 <= i
      invariant forall j, k :: 0 <= j < k < i && k < |s| ==> s[j].end <= s[k].start
    {
      if s[i].start < s[i - 1].end { return false; }
      i := i + 1;
    }
    ok := true;
  }

  /** overlaps_any on disjoint spans in order: one binary search instead of looking at every span. */
  method OverlapsAny(rs: seq<Span>, start: nat, end: nat) returns (r: bool)
    requires Sorted(rs) && Proper(rs) && Disjoint(rs)
    ensures r <==> start < end && exists i :: 0 <= i < |rs| && rs[i].start < end && start < rs[i].end
  {
    if start >= end { return false; }
    SortedDisjoint(rs);
    var lo, hi := 0, |rs|;
    while lo < hi
      invariant 0 <= lo <= hi <= |rs|
      invariant forall i :: 0 <= i < lo ==> rs[i].end <= start
      invariant forall i :: hi <= i < |rs| ==> start < rs[i].end
    {
      var mid := (lo + hi) / 2;
      if rs[mid].end <= start { lo := mid + 1; } else { hi := mid; }
    }
    r := lo < |rs| && rs[lo].start < end;
  }
}
