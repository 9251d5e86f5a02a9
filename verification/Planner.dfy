/**
 The owner relocation planner of src/ext4/relocate.cpp: best-fit placement, the plan it builds, and
 the counting argument that makes a completely covered plan empty the tail.
 */
module Planner {
  import opened Arithmetic
  import opened ExtentTree
  import opened Relocation
  import opened CommitDisk
  import opened Runs
  import opened FixedMetadata
  import opened Matching
  import C = Commit
  import R = CommitRun

  // ---------- best fit ----------

  /** The first of the shortest slots that are long enough. */
  predicate BestFit(slots: seq<BlockExtent>, length: nat, k: nat) {
    && k < |slots| && slots[k].length >= length
    && (forall i :: 0 <= i < |slots| && slots[i].length >= length ==> slots[k].length <= slots[i].length)
    && (forall i :: 0 <= i < k && slots[i].length >= length ==> slots[k].length < slots[i].length)
  }

  predicate Bounded(slots: seq<BlockExtent>) {
    forall i :: 0 <= i < |slots| ==> slots[i].length < MAX64
  }

  method FindBest(slots: seq<BlockExtent>, length: nat) returns (best: nat)
    requires Bounded(slots)
    ensures best <= |slots|
    ensures best == |slots| ==> forall i :: 0 <= i < |slots| ==> slots[i].length < length
    ensures best < |slots| ==> BestFit(slots, length, best)
  {
    best := |slots|;
    var waste := MAX64;
    for i := 0 to |slots|
      invariant best == |slots| ==> waste == MAX64 && forall j :: 0 <= j < i ==> slots[j].length < length
      invariant best != |slots| ==> best < i && slots[best].length == length + waste && BestFit(slots[..i], length, best)
    {
      if slots[i].length >= length {
        var w := slots[i].length - length;
        if w < waste {
          best, waste := i, w;
          if w == 0 { break; }
        }
      }
    }
  }

  class FreeList {
    var slots: seq<BlockExtent>

    constructor (slots: seq<BlockExtent>)
      ensures this.slots == slots
    {
      this.slots := slots;
    }

    /**
     allocate_best_fit: takes the beginning of a least-waste slot. The free blocks are exactly the
     ones before, less the range handed out; it fails only when no slot is long enough.
     */
    method Allocate(length: nat) returns (ok: bool, out: nat)
      requires Bounded(slots)
      modifies this
      ensures Bounded(slots)
      ensures ok <==> exists i :: 0 <= i < |old(slots)| && old(slots)[i].length >= length
      ensures ok ==> exists k: nat :: BestFit(old(slots), length, k) && out == old(slots)[k].start
      ensures ok ==> multiset(Blocks(old(slots))) == multiset(RunOf(BlockExtent(out, length))) + multiset(Blocks(slots))
      ensures !ok ==> slots == old(slots)
    {
      hide Blocks, RunOf;
      var best := FindBest(slots, length);
      if best == |slots| { return false, 0; }
      ghost var before := slots;
      out := slots[best].start;
      var left := BlockExtent(slots[best].start + length, slots[best].length - length);
      slots := slots[best := left];
      TakeFromSlot(before, best, length);
      if left.length == 0 {
        DropEmpty(slots, best);
        slots := slots[..best] + slots[best + 1..];
      }
      ok := true;
    }
  }

  lemma TakeFromSlot(slots: seq<BlockExtent>, k: nat, length: nat)
    requires k < |slots| && length <= slots[k].length
    ensures var left := BlockExtent(slots[k].start + length, slots[k].length - length);
      multiset(Blocks(slots)) == multiset(RunOf(BlockExtent(slots[k].start, length))) + multiset(Blocks(slots[k := left]))
  {
    hide Blocks, RunOf;
    var e := slots[k];
    var left := BlockExtent(e.start + length, e.length - length);
    var after := slots[k := left];
    var a, c := slots[..k], slots[k + 1..];
    assert after[..k] == a && after[k + 1..] == c && after[k] == left;
    BlocksSplit(slots, k);
    BlocksSplit(after, k);
    RunSplit(e, length);
    MultisetMiddle(Blocks(a), RunOf(BlockExtent(e.start, length)), RunOf(left), Blocks(c));
  }

  lemma RunSplit(e: BlockExtent, n: nat)
    requires n <= e.length
    ensures RunOf(e) == RunOf(BlockExtent(e.start, n)) + RunOf(BlockExtent(e.start + n, e.length - n))
  {
  }

  lemma MultisetMiddle(a: seq<nat>, x: seq<nat>, y: seq<nat>, c: seq<nat>)
    ensures multiset(a + (x + y) + c) == multiset(x) + multiset(a + y + c)
  {
  }

  lemma DropEmpty(slots: seq<BlockExtent>, k: nat)
    requires k < |slots| && slots[k].length == 0
    ensures Blocks(slots) == Blocks(slots[..k] + slots[k + 1..])
  {
    assert RunOf(slots[k]) == [];
    hide Blocks, RunOf;
    BlocksSplit(slots, k);
    BlocksConcat(slots[..k], slots[k + 1..]);
  }

  // ---------- placing the owners ----------

  function DepthOf(w: Owner): nat {
    match w case DataOwner(_, _) => 0 case TreeOwner(_, t) => t.depth
  }

  function MoveFor(w: Owner, transaction: nat, destination: nat): OwnerMove {
    match w
    case DataOwner(ino, o) =>
      OwnerMove(DataExtent, transaction, ino, o.extent.logical, o.extent.physical, destination, o.extent.length, o.extent.unwritten, 0)
    case TreeOwner(ino, t) =>
      OwnerMove(TreeBlock, transaction, ino, 0, t.block, destination, 1, false, t.depth)
  }

  /** Where the moves put their blocks. */
  function Placed(moves: seq<OwnerMove>): seq<BlockExtent> {
    seq(|moves|, i requires 0 <= i < |moves| => BlockExtent(moves[i].destination, moves[i].count))
  }

  lemma PlacedAppend(moves: seq<OwnerMove>, m: OwnerMove)
    ensures Blocks(Placed(moves + [m])) == Blocks(Placed(moves)) + RunOf(BlockExtent(m.destination, m.count))
  {
    assert Placed(moves + [m]) == Placed(moves) + [BlockExtent(m.destination, m.count)];
    BlocksAppend(Placed(moves), BlockExtent(m.destination, m.count));
  }

  /** Move `i` takes owner `i`, numbered from 1. */
  predicate Follows(moves: seq<OwnerMove>, ws: seq<Owner>) {
    && |moves| <= |ws|
    && forall i :: 0 <= i < |moves| ==> moves[i] == MoveFor(ws[i], i + 1, moves[i].destination)
  }

  /** In commit order whatever a planned tree block refers to, data or another planned block, comes before it. */
  lemma ReferredFirst(fs: Fs, moves: seq<OwnerMove>, ws: seq<Owner>, order: seq<nat>, a: nat, b: nat)
    requires Follows(moves, ws) && C.IsOrder(|moves|, order) && C.LeavesUp(moves, order) && a < |order| && b < |order|
    requires IsOwner(fs, ws[order[a]]) && IsOwner(fs, ws[order[b]]) && ws[order[b]].TreeOwner?
    requires Container(ws[order[a]]) == Blk(ws[order[b]].t.block)
    ensures a < b
  {
    hide IsOwner, ScanInode;
    var x, y := ws[order[a]], ws[order[b]];
    OwnerFacts(fs, x);
    OwnerFacts(fs, y);
    assert moves[order[a]] == MoveFor(x, order[a] + 1, moves[order[a]].destination);
    assert moves[order[b]] == MoveFor(y, order[b] + 1, moves[order[b]].destination);
    assert !C.Precedes(moves[order[b]], moves[order[a]]);
  }

  ghost predicate Conserved(free0: seq<BlockExtent>, moves: seq<OwnerMove>, free: seq<BlockExtent>) {
    multiset(Blocks(free0)) == multiset(Blocks(Placed(moves))) + multiset(Blocks(free))
  }

  lemma ConservedNext(free0: seq<BlockExtent>, moves: seq<OwnerMove>, mid: seq<BlockExtent>, m: OwnerMove, free: seq<BlockExtent>)
    requires Conserved(free0, moves, mid)
    requires multiset(Blocks(mid)) == multiset(RunOf(BlockExtent(m.destination, m.count))) + multiset(Blocks(free))
    ensures Conserved(free0, moves + [m], free)
  {
    hide Blocks, RunOf;
    PlacedAppend(moves, m);
  }

  /** Place owners `from` to `to` in order, stopping at the first that does not fit. */
  method PlaceAll(free: FreeList, ws: seq<Owner>, from: nat, to: nat, before: seq<OwnerMove>, ghost free0: seq<BlockExtent>)
    returns (placed: bool, moves: seq<OwnerMove>)
    requires from <= to <= |ws| && |before| == from && Follows(before, ws) && Bounded(free.slots)
    requires Conserved(free0, before, free.slots)
    modifies free
    ensures Follows(moves, ws) && Bounded(free.slots) && Conserved(free0, moves, free.slots)
    ensures placed ==> |moves| == to
    ensures !placed ==> from <= |moves| < to && forall i :: 0 <= i < |free.slots| ==> free.slots[i].length < Len(ws[|moves|])
  {
    hide Conserved, Blocks, RunOf;
    moves := before;
    for k := from to to
      invariant |moves| == k && Follows(moves, ws) && Bounded(free.slots) && Conserved(free0, moves, free.slots)
    {
      ghost var mid := free.slots;
      var ok, dest := free.Allocate(Len(ws[k]));
      if !ok { return false, moves; }
      var m := MoveFor(ws[k], k + 1, dest);
      ConservedNext(free0, moves, mid, m, free.slots);
      moves := moves + [m];
    }
    placed := true;
  }

  /** Longest data extents first. */
  predicate LongestFirst(ws: seq<Owner>) {
    forall i, j :: 0 <= i < j < |ws| ==> Len(ws[i]) >= Len(ws[j])
  }

  method SortOwners(ws: seq<Owner>) returns (s: seq<Owner>)
    ensures multiset(s) == multiset(ws) && LongestFirst(s)
  {
    s := [];
    for k := 0 to |ws|
      invariant multiset(s) == multiset(ws[..k]) && LongestFirst(s)
    {
      hide LongestFirst;
      var pos := FindPlace(s, ws[k]);
      InsertOwner(s, pos, ws[k]);
      InsertMultiset(s, pos, ws[k]);
      PrefixMultiset(ws, k);
      s := s[..pos] + [ws[k]] + s[pos..];
    }
    assert ws[..|ws|] == ws;
  }

  /** Where insertion from the back puts an owner. */
  method FindPlace(s: seq<Owner>, w: Owner) returns (pos: nat)
    ensures pos <= |s| && (pos > 0 ==> Len(s[pos - 1]) >= Len(w))
    ensures forall i :: pos <= i < |s| ==> Len(s[i]) < Len(w)
  {
    pos := |s|;
    while pos > 0 && Len(s[pos - 1]) < Len(w)
      invariant pos <= |s|
      invariant forall i :: pos <= i < |s| ==> Len(s[i]) < Len(w)
    {
      pos := pos - 1;
    }
  }

  lemma InsertOwner(s: seq<Owner>, pos: nat, w: Owner)
    requires pos <= |s| && LongestFirst(s)
    requires forall i :: pos <= i < |s| ==> Len(s[i]) < Len(w)
    requires pos > 0 ==> Len(s[pos - 1]) >= Len(w)
    ensures LongestFirst(s[..pos] + [w] + s[pos..])
  {
    var r := s[..pos] + [w] + s[pos..];
    forall i, j | 0 <= i < j < |r| ensures Len(r[i]) >= Len(r[j]) {
      if j == pos {
        assert r[i] == s[i];
      } else if i == pos {
        assert r[j] == s[j - 1];
      } else {
        assert r[i] == s[if i < pos then i else i - 1] && r[j] == s[if j < pos then j else j - 1];
      }
    }
  }

  // ---------- counting the tail ----------

  /** Blocks of an owner at or above the target. */
  function TailLen(w: Owner, target: nat): nat {
    if Start(w) + Len(w) <= target then 0
    else Start(w) + Len(w) - if Start(w) > target then Start(w) else target
  }

  function SumTail(ws: seq<Owner>, target: nat): nat {
    if ws == [] then 0 else SumTail(ws[..|ws| - 1], target) + TailLen(ws[|ws| - 1], target)
  }

  function TailRange(w: Owner, target: nat): set<nat> {
    if Start(w) + Len(w) <= target then {}
    else Range(if Start(w) > target then Start(w) else target, TailLen(w, target))
  }

  ghost predicate OwnersDisjoint(ws: seq<Owner>) {
    forall i, j :: 0 <= i < j < |ws| ==> Apart(Start(ws[i]), Len(ws[i]), Start(ws[j]), Len(ws[j]))
  }

  ghost function TailSet(ws: seq<Owner>, target: nat): set<nat> {
    if ws == [] then {} else TailSet(ws[..|ws| - 1], target) + TailRange(ws[|ws| - 1], target)
  }

  lemma {:induction false} InTailSet(ws: seq<Owner>, target: nat, b: nat)
    ensures b in TailSet(ws, target) <==> target <= b && exists i :: 0 <= i < |ws| && InRange(b, Start(ws[i]), Len(ws[i]))
    decreases |ws|
  {
    if ws != [] {
      var init, last := ws[..|ws| - 1], ws[|ws| - 1];
      InTailSet(init, target, b);
      assert b in TailRange(last, target) <==> target <= b && InRange(b, Start(last), Len(last));
      if i: nat :| i < |ws| && InRange(b, Start(ws[i]), Len(ws[i])) {
        assert i < |init| ==> init[i] == ws[i];
      }
      if i: nat :| i < |init| && InRange(b, Start(init[i]), Len(init[i])) {
        assert init[i] == ws[i];
      }
    }
  }

  lemma {:induction false} TailCard(ws: seq<Owner>, target: nat)
    requires OwnersDisjoint(ws)
    ensures |TailSet(ws, target)| == SumTail(ws, target)
    decreases |ws|
  {
    if ws != [] {
      var init, last := ws[..|ws| - 1], ws[|ws| - 1];
      TailCard(init, target);
      R.RangeSize(if Start(last) > target then Start(last) else target, TailLen(last, target));
      forall b | b in TailSet(init, target) ensures b !in TailRange(last, target) {
        InTailSet(init, target, b);
        var i :| 0 <= i < |init| && InRange(b, Start(init[i]), Len(init[i]));
        assert Apart(Start(ws[i]), Len(ws[i]), Start(last), Len(last));
      }
      assert TailSet(init, target) !! TailRange(last, target);
    }
  }

  ghost function UsedAbove(used: set<nat>, target: nat, blocks: nat): set<nat> {
    set b | b in used && target <= b < blocks
  }

  /**
   If disjoint allocated ranges account for as many blocks above the target as are allocated there,
   every allocated block above the target lies in one of them.
   */
  lemma TailCovered(used: set<nat>, ws: seq<Owner>, target: nat, blocks: nat, b: nat)
    requires OwnersDisjoint(ws)
    requires forall i :: 0 <= i < |ws| ==> Range(Start(ws[i]), Len(ws[i])) <= used && Start(ws[i]) + Len(ws[i]) <= blocks
    requires |UsedAbove(used, target, blocks)| <= SumTail(ws, target)
    requires b in used && target <= b < blocks
    ensures exists i :: 0 <= i < |ws| && InRange(b, Start(ws[i]), Len(ws[i]))
  {
    var tail := TailSet(ws, target);
    TailCard(ws, target);
    forall x | x in tail ensures x in UsedAbove(used, target, blocks) {
      InTailSet(ws, target, x);
      var i :| 0 <= i < |ws| && InRange(x, Start(ws[i]), Len(ws[i]));
      assert x in Range(Start(ws[i]), Len(ws[i]));
    }
    SubsetSameCard(tail, UsedAbove(used, target, blocks));
    InTailSet(ws, target, b);
  }

  lemma SubsetSameCard(a: set<nat>, b: set<nat>)
    requires a <= b && |b| <= |a|
    ensures a == b
  {
    var rest := b - a;
    assert b == a + rest;
    assert |b| == |a| + |rest|;
    assert rest == {};
  }

  /** The sum over the runs that both the planner and the shrink check make. */
  method AllocatedTail(es: seq<BlockExtent>, target: nat, ghost end: nat) returns (n: nat)
    requires Separated(es) && forall i :: 0 <= i < |es| ==> End(es[i]) <= end
    ensures n == |Above(es, target)|
  {
    hide Runs.Covers, Clipped, Separated, Blocks;
    n := 0;
    ghost var t: seq<BlockExtent> := [];
    ClipNone(es, target, end);
    for k := 0 to |es|
      invariant Clipped(es, k, target, end, t) && n == Total(t)
    {
      var e := es[k];
      var s := if e.start > target then e.start else target;
      RunPositive(es, k);
      ClipNext(es, k, target, end, t, s, End(e));
      if End(e) > target {
        BlocksAppend(t, BlockExtent(s, End(e) - s));
        t := t + [BlockExtent(s, End(e) - s)];
        n := n + (End(e) - s);
      }
    }
    ClipRest(es, |es|, target, end, t);
    CoversBelow(es, end);
    SortedRuns(t, t);
    forall b: nat ensures b in Blocks(es) <==> Runs.Covers(es, b) { InBlocks(es, b); }
    CountSorted(es, t, Above(es, target));
  }

  method SumTails(ws: seq<Owner>, target: nat) returns (n: nat)
    ensures n == SumTail(ws, target)
  {
    n := 0;
    for i := 0 to |ws|
      invariant n == SumTail(ws[..i], target)
    {
      assert ws[..i + 1][..i] == ws[..i];
      if Start(ws[i]) + Len(ws[i]) > target {
        n := n + (Start(ws[i]) + Len(ws[i]) - if Start(ws[i]) > target then Start(ws[i]) else target);
      }
    }
    assert ws[..|ws|] == ws;
  }

  /** An owner the scan retains: it reaches the target or beyond. */
  predicate Reaches(w: Owner, target: nat) { Start(w) + Len(w) > target }

  /** The blocks of the filesystem as the allocation map describes them. */
  ghost predicate Describes(usedRuns: seq<BlockExtent>, freeRuns: seq<BlockExtent>, used: set<nat>, firstData: nat, blocks: nat) {
    && Separated(usedRuns) && Separated(freeRuns)
    && (forall i :: 0 <= i < |usedRuns| ==> End(usedRuns[i]) <= blocks)
    && (forall i :: 0 <= i < |freeRuns| ==> End(freeRuns[i]) <= blocks)
    && (forall b: nat :: Runs.Covers(usedRuns, b) <==> firstData <= b < blocks && b in used)
    && (forall b: nat :: Runs.Covers(freeRuns, b) <==> firstData <= b < blocks && b !in used)
  }

  /** Free runs below the target, shortest first, as the planner starts with them. */
  method FreeBelow(freeRuns: seq<BlockExtent>, target: nat, ghost blocks: nat) returns (slots: seq<BlockExtent>)
    requires Separated(freeRuns) && (forall i :: 0 <= i < |freeRuns| ==> End(freeRuns[i]) <= blocks) && blocks < MAX64
    ensures Bounded(slots) && Distinct(Blocks(slots))
    ensures forall i, j :: 0 <= i < j < |slots| ==> slots[i].length <= slots[j].length
    ensures forall b: nat :: b in Blocks(slots) <==> b < target && Runs.Covers(freeRuns, b)
  {
    hide Runs.Covers, Separated, Blocks, Distinct;
    var head := Head(freeRuns, target);
    var down := SortByLength(head);
    SortedRuns(head, down);
    slots := Reverse(down);
    ReversedBlocks(down, slots);
    HeadBounded(freeRuns, head, slots, target, blocks);
  }

  method Reverse(es: seq<BlockExtent>) returns (r: seq<BlockExtent>)
    ensures |r| == |es| && forall i :: 0 <= i < |r| ==> r[i] == es[|es| - 1 - i]
    ensures multiset(r) == multiset(es)
  {
    r := [];
    for k := 0 to |es|
      invariant |r| == k && (forall i :: 0 <= i < k ==> r[i] == es[k - 1 - i]) && multiset(r) == multiset(es[..k])
    {
      PrefixMultiset(es, k);
      r := [es[k]] + r;
    }
    assert es[..|es|] == es;
  }

  lemma ReversedBlocks(a: seq<BlockExtent>, b: seq<BlockExtent>)
    requires multiset(a) == multiset(b) && Distinct(Blocks(a))
    ensures Distinct(Blocks(b)) && forall x: nat :: x in Blocks(b) <==> x in Blocks(a)
  {
    hide Blocks, Distinct;
    BlocksPermuted(a, b);
    DistinctPermuted(Blocks(a), Blocks(b));
    assert forall x: nat :: x in Blocks(b) <==> x in multiset(Blocks(b));
  }

  lemma HeadBounded(freeRuns: seq<BlockExtent>, head: seq<BlockExtent>, slots: seq<BlockExtent>, target: nat, blocks: nat)
    requires Separated(head) && multiset(slots) == multiset(head) && blocks < MAX64
    requires forall i :: 0 <= i < |freeRuns| ==> End(freeRuns[i]) <= blocks
    requires forall b: nat :: Runs.Covers(head, b) <==> b < target && Runs.Covers(freeRuns, b)
    ensures Bounded(slots)
  {
    forall i | 0 <= i < |slots| ensures slots[i].length < MAX64 {
      assert slots[i] in multiset(slots);
      assert slots[i] in head;
      var k :| 0 <= k < |head| && head[k] == slots[i];
      assert InExtent(head[k], End(head[k]) - 1);
      assert Runs.Covers(head, End(head[k]) - 1);
    }
  }

  // ---------- the plan ----------

  datatype OwnerPlan = OwnerPlan(moves: seq<OwnerMove>, destinationsAvailable: bool, unknownAbove: nat, completeCoverage: bool)

  function Excess(total: nat, known: nat): nat { if total <= known then 0 else total - known }

  datatype PlanResult = Overlapping | MetadataUnallocated | Built(plan: OwnerPlan)

  function SpanOf(w: Owner): Span {
    Span(Start(w), Start(w) + Len(w), w.ino, w.TreeOwner?)
  }

  function Spans(ws: seq<Owner>): seq<Span> {
    seq(|ws|, i requires 0 <= i < |ws| => SpanOf(ws[i]))
  }

  lemma SpansDisjoint(ws: seq<Owner>)
    requires forall i :: 0 <= i < |ws| ==> Len(ws[i]) > 0
    ensures Proper(Spans(ws)) && (Disjoint(Spans(ws)) <==> OwnersDisjoint(ws))
  {
    var rs := Spans(ws);
    forall i, j | 0 <= i < j < |ws| ensures !Meets(rs[i], rs[j]) <==> Apart(Start(ws[i]), Len(ws[i]), Start(ws[j]), Len(ws[j])) {
    }
    if Disjoint(rs) {
      forall i, j | 0 <= i < j < |ws| ensures Apart(Start(ws[i]), Len(ws[i]), Start(ws[j]), Len(ws[j])) {
        assert !Meets(rs[i], rs[j]);
      }
    }
  }

  /** Destinations are distinct blocks, free and below the target. */
  ghost predicate WellPlaced(moves: seq<OwnerMove>, freeRuns: seq<BlockExtent>, target: nat) {
    && Distinct(Blocks(Placed(moves)))
    && forall b: nat :: b in Blocks(Placed(moves)) ==> b < target && Runs.Covers(freeRuns, b)
  }

  /** The free blocks below the target are those handed out and those left. */
  ghost predicate FreeLeft(moves: seq<OwnerMove>, left: seq<BlockExtent>, freeRuns: seq<BlockExtent>, target: nat) {
    forall b: nat :: b in Blocks(Placed(moves)) || b in Blocks(left) <==> b < target && Runs.Covers(freeRuns, b)
  }

  lemma ConservedLeft(free0: seq<BlockExtent>, moves: seq<OwnerMove>, free: seq<BlockExtent>, freeRuns: seq<BlockExtent>, target: nat)
    requires Conserved(free0, moves, free)
    requires forall b: nat :: b in Blocks(free0) <==> b < target && Runs.Covers(freeRuns, b)
    ensures FreeLeft(moves, free, freeRuns, target)
  {
    hide Blocks, Runs.Covers;
    forall b: nat ensures b in Blocks(free0) <==> b in Blocks(Placed(moves)) || b in Blocks(free) {
      assert b in Blocks(free0) <==> b in multiset(Blocks(free0));
      assert b in Blocks(Placed(moves)) <==> b in multiset(Blocks(Placed(moves)));
      assert b in Blocks(free) <==> b in multiset(Blocks(free));
    }
  }

  lemma ConservedPlaces(free0: seq<BlockExtent>, moves: seq<OwnerMove>, free: seq<BlockExtent>, freeRuns: seq<BlockExtent>, target: nat)
    requires Conserved(free0, moves, free) && Distinct(Blocks(free0))
    requires forall b: nat :: b in Blocks(free0) <==> b < target && Runs.Covers(freeRuns, b)
    ensures WellPlaced(moves, freeRuns, target)
  {
    hide Blocks, Distinct, Runs.Covers;
    var a := Blocks(Placed(moves));
    DistinctIsSingle(Blocks(free0));
    forall x ensures multiset(a)[x] <= 1 {
      assert multiset(Blocks(free0))[x] <= 1;
    }
    DistinctIsSingle(a);
    forall b: nat | b in a ensures b < target && Runs.Covers(freeRuns, b) {
      assert b in multiset(a);
      assert b in multiset(Blocks(free0));
      assert b in Blocks(free0);
    }
  }

  /**
   build_owner_relocation_plan on the retained owners: refused exactly when they overlap; otherwise
   moves follow the owners, each to distinct free blocks below the target, and coverage is complete
   exactly when everything was placed, nothing was skipped and the retained owners and the fixed
   metadata account for every allocated block above the target.
   */
  method BuildOwnerPlan(usedRuns: seq<BlockExtent>, freeRuns: seq<BlockExtent>, data: seq<Owner>, trees: seq<Owner>,
                        target: nat, descs: seq<GroupDesc>, tableBlocks: nat, legacyInodes: nat, corruptInodes: nat, blocks: nat,
                        ghost used: set<nat>, ghost firstData: nat)
    returns (r: PlanResult, ghost ws: seq<Owner>, ghost left: seq<BlockExtent>)
    requires Describes(usedRuns, freeRuns, used, firstData, blocks) && blocks < MAX64
    requires tableBlocks <= MAX64 && forall g :: 0 <= g < |descs| ==> descs[g].blockBitmap < blocks && descs[g].inodeBitmap < blocks && descs[g].inodeTable < blocks
    requires forall i :: 0 <= i < |data| ==> data[i].DataOwner? && Len(data[i]) > 0 && Reaches(data[i], target)
    requires forall i :: 0 <= i < |trees| ==> trees[i].TreeOwner? && Start(trees[i]) >= target
    ensures r.Overlapping? <==> !OwnersDisjoint(data + trees)
    ensures r.MetadataUnallocated? <==> OwnersDisjoint(data + trees) && exists b: nat :: IsFixed(descs, tableBlocks, b) && !Runs.Covers(usedRuns, b)
    ensures multiset(ws) == multiset(data + trees)
    ensures r.Built? ==> Follows(r.plan.moves, ws) && WellPlaced(r.plan.moves, freeRuns, target)
    ensures r.Built? ==> |ws| == |data| + |trees| && LongestFirst(ws[..|data|]) && ws[|data|..] == trees
    ensures r.Built? ==> FreeLeft(r.plan.moves, left, freeRuns, target)
    ensures r.Built? && !r.plan.destinationsAvailable ==> |r.plan.moves| < |ws| && forall i :: 0 <= i < |left| ==> left[i].length < Len(ws[|r.plan.moves|])
    ensures r.Built? ==> (r.plan.destinationsAvailable <==> |r.plan.moves| == |ws|)
    ensures r.Built? ==> r.plan.unknownAbove == Excess(|Above(usedRuns, target)|, SumTail(data + trees, target) + FixedAbove(descs, tableBlocks, target, blocks))
    ensures r.Built? ==> (r.plan.completeCoverage <==>
      r.plan.destinationsAvailable && legacyInodes == 0 && corruptInodes == 0 && r.plan.unknownAbove == 0)
  {
    hide FreeLeft, LongestFirst, Runs.Covers, Separated, Blocks, Distinct, OwnersDisjoint, Disjoint, SumTail, Above, Conserved, Follows;
    SpansDisjoint(data + trees);
    var ok := ValidateOwnerRanges(Spans(data + trees));
    ws, left := data + trees, [];
    if !ok { return Overlapping, ws, left; }
    ok := FixedAllocated(usedRuns, descs, tableBlocks, blocks);
    if !ok { return MetadataUnallocated, ws, left; }
    var fixedAbove := CountFixed(descs, tableBlocks, target, blocks);
    var slots := FreeBelow(freeRuns, target, blocks);
    var free := new FreeList(slots);
    var byLength := SortOwners(data);
    var all := byLength + trees;
    ws := all;
    assert |multiset(byLength)| == |multiset(data)|;
    NothingPlaced(slots, all);
    var placed, moves := PlaceAll(free, all, 0, |byLength|, [], slots);
    if placed { placed, moves := PlaceAll(free, all, |byLength|, |all|, moves, slots); }
    left := free.slots;
    assert all[..|data|] == byLength && all[|data|..] == trees;
    ConservedLeft(slots, moves, left, freeRuns, target);
    ConservedPlaces(slots, moves, free.slots, freeRuns, target);
    var allocatedTail := AllocatedTail(usedRuns, target, blocks);
    var dataTail := SumTails(data, target);
    TreesCount(data, trees, target);
    var sum := dataTail + |trees| + fixedAbove;
    var known := if sum < allocatedTail then sum else allocatedTail;
    var unknown := allocatedTail - known;
    FollowsLength(moves, all);
    r := Built(OwnerPlan(moves, placed, unknown, placed && legacyInodes == 0 && corruptInodes == 0 && unknown == 0));
  }

  /** The planner's check that all fixed metadata is marked allocated. */
  method FixedAllocated(usedRuns: seq<BlockExtent>, descs: seq<GroupDesc>, tableBlocks: nat, blocks: nat) returns (ok: bool)
    requires Separated(usedRuns) && blocks < MAX64 && tableBlocks <= MAX64 && forall i :: 0 <= i < |usedRuns| ==> End(usedRuns[i]) <= blocks
    requires forall g :: 0 <= g < |descs| ==> descs[g].blockBitmap < blocks && descs[g].inodeBitmap < blocks && descs[g].inodeTable < blocks
    ensures ok <==> forall b: nat :: IsFixed(descs, tableBlocks, b) ==> Runs.Covers(usedRuns, b)
  {
    hide Runs.Covers, Separated;
    for g := 0 to |descs|
      invariant forall h, b: nat :: 0 <= h < g && FixedIn(descs[h], tableBlocks, b) ==> Runs.Covers(usedRuns, b)
    {
      var d := descs[g];
      var x := FullyAllocated(usedRuns, d.blockBitmap, 1);
      var y := FullyAllocated(usedRuns, d.inodeBitmap, 1);
      var z := FullyAllocated(usedRuns, d.inodeTable, tableBlocks);
      if !x || !y || !z {
        ghost var b: nat :| FixedIn(d, tableBlocks, b) && !Runs.Covers(usedRuns, b);
        assert IsFixed(descs, tableBlocks, b);
        return false;
      }
    }
    ok := true;
  }

  lemma FollowsLength(moves: seq<OwnerMove>, ws: seq<Owner>)
    requires Follows(moves, ws)
    ensures |moves| <= |ws|
  {
  }

  lemma NothingPlaced(slots: seq<BlockExtent>, ws: seq<Owner>)
    ensures Follows([], ws) && Conserved(slots, [], slots)
  {
    assert Placed([]) == [];
    BlocksNone();
  }

  lemma {:induction false} TreesCount(data: seq<Owner>, trees: seq<Owner>, target: nat)
    requires forall i :: 0 <= i < |trees| ==> trees[i].TreeOwner? && Start(trees[i]) >= target
    ensures SumTail(data + trees, target) == SumTail(data, target) + |trees|
    decreases |trees|
  {
    if trees == [] {
      assert data + trees == data;
    } else {
      var n := |trees| - 1;
      TreesCount(data, trees[..n], target);
      assert (data + trees)[..|data| + n] == data + trees[..n];
    }
  }

  // ---------- what the plan is good for ----------

  lemma {:induction false} SumTailConcat(a: seq<Owner>, b: seq<Owner>, target: nat)
    ensures SumTail(a + b, target) == SumTail(a, target) + SumTail(b, target)
    decreases |b|
  {
    if b == [] {
      assert a + b == a;
    } else {
      SumTailConcat(a, b[..|b| - 1], target);
      assert (a + b)[..|a + b| - 1] == a + b[..|b| - 1];
    }
  }

  lemma {:induction false} SumTailPermuted(a: seq<Owner>, b: seq<Owner>, target: nat)
    requires multiset(a) == multiset(b)
    ensures SumTail(a, target) == SumTail(b, target)
    decreases |a|
  {
    hide SumTail;
    assert |multiset(a)| == |a| && |multiset(b)| == |b|;
    if a == [] {
      assert b == [];
    } else {
      var n := |a| - 1;
      assert a == a[..n] + [a[n]];
      assert a[n] in multiset(b);
      assert a[n] in b;
      var i :| 0 <= i < |b| && b[i] == a[n];
      RemoveOne(b, i);
      RemoveOne(a, n);
      assert a[..n] + a[n + 1..] == a[..n];
      assert multiset(a[..n]) == multiset(a) - multiset{a[n]};
      assert multiset(b[..i] + b[i + 1..]) == multiset(b) - multiset{a[n]};
      SumTailPermuted(a[..n], b[..i] + b[i + 1..], target);
      SplitAt(b, i);
      SumTailConcat(a[..n], [a[n]], target);
      SumTailConcat(b[..i] + [b[i]], b[i + 1..], target);
      SumTailConcat(b[..i], [b[i]], target);
      SumTailConcat(b[..i], b[i + 1..], target);
    }
  }

  lemma PlacedBlock(moves: seq<OwnerMove>, i: nat, b: nat)
    requires i < |moves| && InRange(b, moves[i].destination, moves[i].count)
    ensures b in Blocks(Placed(moves))
  {
    InBlocks(Placed(moves), b);
    assert InExtent(Placed(moves)[i], b);
  }

  /** Distinct blocks make disjoint destination ranges. */
  lemma PlacedApart(moves: seq<OwnerMove>, i: nat, j: nat)
    requires Distinct(Blocks(Placed(moves))) && i < j < |moves| && moves[i].count > 0 && moves[j].count > 0
    ensures Apart(moves[i].destination, moves[i].count, moves[j].destination, moves[j].count)
  {
    hide Blocks;
    var es := Placed(moves);
    var s := Blocks(es);
    BlocksSplit(es, j);
    var a := Blocks(es[..j]);
    forall b | b in Range(moves[i].destination, moves[i].count) ensures b !in Range(moves[j].destination, moves[j].count) {
      InBlocks(es[..j], b);
      assert InExtent(es[..j][i], b);
      var p :| 0 <= p < |a| && a[p] == b;
      forall q | 0 <= q < |RunOf(es[j])| ensures RunOf(es[j])[q] != b {
        assert s[p] != s[|a| + q];
      }
      InRunOf(es[j], b);
    }
    DisjointIsApart(moves[i].destination, moves[i].count, moves[j].destination, moves[j].count);
  }

  /** A built plan on a sound filesystem is one the commit accepts. */
  lemma PlanIsPlanned(fs: Fs, used: set<nat>, moves: seq<OwnerMove>, ws: seq<Owner>, usedRuns: seq<BlockExtent>, freeRuns: seq<BlockExtent>, target: nat, firstData: nat)
    requires Sound(fs, used) && Describes(usedRuns, freeRuns, used, firstData, fs.blocksCount)
    requires firstData > 0 || 0 in used
    requires forall i :: 0 <= i < |ws| ==> IsOwner(fs, ws[i])
    requires forall i, j :: 0 <= i < j < |ws| ==> ws[i] != ws[j]
    requires Follows(moves, ws) && WellPlaced(moves, freeRuns, target)
    ensures Planned(Plan(fs, used, moves, ws[..|moves|]))
  {
    hide IsOwner, Sound, Blocks, Distinct, Runs.Covers;
    var p := Plan(fs, used, moves, ws[..|moves|]);
    forall i | 0 <= i < |moves| ensures moves[i].count > 0 && MovesOwner(moves[i], p.owners[i]) {
      OwnerFacts(fs, ws[i]);
    }
    forall i | 0 <= i < |moves|
      ensures 0 < moves[i].destination && moves[i].destination + moves[i].count <= fs.blocksCount
      ensures Range(moves[i].destination, moves[i].count) !! used
    {
      forall b: nat | InRange(b, moves[i].destination, moves[i].count) ensures firstData <= b < fs.blocksCount && b !in used {
        PlacedBlock(moves, i, b);
      }
      assert InRange(moves[i].destination, moves[i].destination, moves[i].count);
      assert InRange(moves[i].destination + moves[i].count - 1, moves[i].destination, moves[i].count);
    }
    forall i, j | 0 <= i < |moves| && 0 <= j < |moves| && i != j
      ensures Apart(moves[i].destination, moves[i].count, moves[j].destination, moves[j].count)
    {
      if i < j { PlacedApart(moves, i, j); } else { PlacedApart(moves, j, i); }
    }
  }

  /**
   Once every move of a completely covered plan is done, and no fixed metadata lies above the
   target, no block at or above the target is allocated.
   */
  lemma PlanEmptiesTail(p: Plan, target: nat, after: set<nat>)
    requires Planned(p) && C.Relocated(p, after)
    requires forall i :: 0 <= i < |p.moves| ==> p.moves[i].destination + p.moves[i].count <= target
    requires |UsedAbove(p.allocated0, target, p.fs0.blocksCount)| <= SumTail(p.owners, target)
    ensures forall b :: target <= b < p.fs0.blocksCount ==> b !in after
  {
    hide IsOwner, ScanInode;
    var ws, blocks := p.owners, p.fs0.blocksCount;
    forall i | 0 <= i < |ws| ensures Range(Start(ws[i]), Len(ws[i])) <= p.allocated0 && Start(ws[i]) + Len(ws[i]) <= blocks {
      OwnerFacts(p.fs0, ws[i]);
    }
    forall i, j | 0 <= i < j < |ws| ensures Apart(Start(ws[i]), Len(ws[i]), Start(ws[j]), Len(ws[j])) {
      OwnersApart(p, ws[i], ws[j]);
    }
    forall b | target <= b < blocks ensures b !in after {
      assert !C.InDestination(p, b);
      if b in p.allocated0 {
        TailCovered(p.allocated0, ws, target, blocks, b);
        var i :| 0 <= i < |ws| && InRange(b, Start(ws[i]), Len(ws[i]));
        assert InRange(b, p.moves[i].source, p.moves[i].count);
        assert C.InSource(p, b);
      }
    }
  }

  /** The shrink check then counts no allocated tail block. */
  lemma ShrinkSeesEmptyTail(usedRuns: seq<BlockExtent>, freeRuns: seq<BlockExtent>, after: set<nat>, firstData: nat, blocks: nat, target: nat)
    requires Describes(usedRuns, freeRuns, after, firstData, blocks) && firstData <= target
    ensures Above(usedRuns, target) == {} <==> forall b :: target <= b < blocks ==> b !in after
  {
    hide Blocks;
    forall b: nat ensures b in Blocks(usedRuns) <==> Runs.Covers(usedRuns, b) { InBlocks(usedRuns, b); }
    if Above(usedRuns, target) == {} {
      forall b | target <= b < blocks ensures b !in after {
        assert b !in Above(usedRuns, target);
      }
    }
  }

  lemma AboveIsUsedAbove(usedRuns: seq<BlockExtent>, freeRuns: seq<BlockExtent>, used: set<nat>, firstData: nat, blocks: nat, target: nat)
    requires Describes(usedRuns, freeRuns, used, firstData, blocks) && firstData <= target
    ensures Above(usedRuns, target) == UsedAbove(used, target, blocks)
  {
    hide Blocks;
    forall b: nat ensures b in Blocks(usedRuns) <==> Runs.Covers(usedRuns, b) { InBlocks(usedRuns, b); }
  }

  lemma BelowTarget(moves: seq<OwnerMove>, freeRuns: seq<BlockExtent>, target: nat, i: nat)
    requires WellPlaced(moves, freeRuns, target) && i < |moves| && moves[i].count > 0
    ensures moves[i].destination + moves[i].count <= target
  {
    hide Blocks;
    PlacedBlock(moves, i, moves[i].destination + moves[i].count - 1);
  }

  /**
   From plan to shrink: a plan built with complete coverage and no fixed metadata above the target,
   carried out on a sound filesystem, leaves a map on which the shrink check sees an empty tail.
   */
  lemma CompletePlanReadiesShrink(fs: Fs, used: set<nat>, plan: OwnerPlan, ws: seq<Owner>, listed: seq<Owner>,
                                  usedRuns: seq<BlockExtent>, freeRuns: seq<BlockExtent>, target: nat, firstData: nat,
                                  after: set<nat>, usedAfter: seq<BlockExtent>, freeAfter: seq<BlockExtent>)
    requires Sound(fs, used) && Describes(usedRuns, freeRuns, used, firstData, fs.blocksCount) && firstData <= target
    requires firstData > 0 || 0 in used
    requires multiset(ws) == multiset(listed) && OwnersDisjoint(listed) && forall i :: 0 <= i < |ws| ==> IsOwner(fs, ws[i])
    requires Follows(plan.moves, ws) && WellPlaced(plan.moves, freeRuns, target) && |plan.moves| == |ws|
    requires |Above(usedRuns, target)| <= SumTail(listed, target)
    requires C.Relocated(Plan(fs, used, plan.moves, ws), after)
    requires Describes(usedAfter, freeAfter, after, firstData, fs.blocksCount)
    ensures Planned(Plan(fs, used, plan.moves, ws))
    ensures Above(usedAfter, target) == {}
  {
    hide IsOwner, Sound, Blocks, Distinct, Runs.Covers, SumTail, Above, UsedAbove, Describes, WellPlaced;
    var p := Plan(fs, used, plan.moves, ws);
    assert ws[..|plan.moves|] == ws;
    OwnersDistinct(fs, ws, listed);
    PlanIsPlanned(fs, used, plan.moves, ws, usedRuns, freeRuns, target, firstData);
    forall i | 0 <= i < |p.moves| ensures p.moves[i].destination + p.moves[i].count <= target {
      OwnerFacts(fs, ws[i]);
      BelowTarget(plan.moves, freeRuns, target, i);
    }
    AboveIsUsedAbove(usedRuns, freeRuns, used, firstData, fs.blocksCount, target);
    SumTailPermuted(ws, listed, target);
    PlanEmptiesTail(p, target, after);
    ShrinkSeesEmptyTail(usedAfter, freeAfter, after, firstData, fs.blocksCount, target);
  }

  /** Disjoint nonempty owners are different owners, in any order. */
  lemma OwnersDistinct(fs: Fs, ws: seq<Owner>, listed: seq<Owner>)
    requires multiset(ws) == multiset(listed) && OwnersDisjoint(listed) && forall i :: 0 <= i < |ws| ==> IsOwner(fs, ws[i])
    ensures forall i, j :: 0 <= i < j < |ws| ==> ws[i] != ws[j]
  {
    hide IsOwner;
    forall i, j | 0 <= i < j < |ws| ensures ws[i] != ws[j] {
      OwnerFacts(fs, ws[i]);
      ListedOnce(listed, ws[i]);
      TwiceListed(ws, i, j);
    }
  }

  lemma TwiceListed(s: seq<Owner>, i: nat, j: nat)
    requires i < j < |s|
    ensures s[i] == s[j] ==> multiset(s)[s[i]] >= 2
  {
    assert s == s[..j] + s[j..];
    assert s[..j][i] == s[i] && s[j..][0] == s[j];
    assert multiset(s) == multiset(s[..j]) + multiset(s[j..]);
  }

  lemma {:induction false} ListedOnce(s: seq<Owner>, w: Owner)
    requires OwnersDisjoint(s) && Len(w) > 0
    ensures multiset(s)[w] <= 1
    decreases |s|
  {
    if s != [] {
      var n := |s| - 1;
      var init := s[..n];
      ListedOnce(init, w);
      assert s == init + [s[n]];
      if s[n] == w {
        forall i | 0 <= i < n ensures init[i] != w {
          assert Apart(Start(s[i]), Len(s[i]), Start(s[n]), Len(s[n]));
        }
        assert w !in init;
      }
    }
  }
}
