/**
 The state a relocation commit works on, and what every intermediate disk must satisfy.

 A plan moves owned ranges: data extents and extent-tree blocks. `rho` records which owners already
 point at their destination. The invariant `Safe` is about the original filesystem `fs0`, the plan
 and one disk; it holds for every disk a crash can leave behind, not only between moves.
 */
module Relocation {
  import opened ExtentTree

  predicate InRange(b: nat, start: nat, length: nat) {
    start <= b < start + length
  }

  function Range(start: nat, length: nat): set<nat> {
    set b | start <= b < start + length && InRange(b, start, length)
  }

  predicate Apart(s: nat, m: nat, t: nat, n: nat) {
    s + m <= t || t + n <= s
  }

  lemma DisjointIsApart(s: nat, m: nat, t: nat, n: nat)
    requires m > 0 && n > 0 && Range(s, m) !! Range(t, n)
    ensures Apart(s, m, t, n)
  {
    assert s in Range(s, m) && t in Range(t, n);
    assert s !in Range(t, n) && t !in Range(s, m);
  }

  // ---------- owners ----------

  /** Whoever refers to a range of blocks: a leaf entry or an index entry of some inode's tree. */
  datatype Owner = DataOwner(ino: nat, o: Owned) | TreeOwner(ino: nat, t: TreeRef)

  function Start(w: Owner): nat {
    match w case DataOwner(_, o) => o.extent.physical case TreeOwner(_, t) => t.block
  }

  function Len(w: Owner): nat {
    match w case DataOwner(_, o) => o.extent.length case TreeOwner(_, _) => 1
  }

  function Container(w: Owner): Loc {
    match w case DataOwner(_, o) => o.container case TreeOwner(_, t) => t.parent
  }

  function Slot(w: Owner): nat {
    match w case DataOwner(_, o) => o.index case TreeOwner(_, t) => t.index
  }

  ghost predicate IsOwner(fs: Fs, w: Owner) {
    && w.ino in fs.roots && ScanInode(fs, w.ino).Scan?
    && match w
       case DataOwner(ino, o) => o in ScanInode(fs, ino).extents
       case TreeOwner(ino, t) => t in ScanInode(fs, ino).trees
  }

  /** `l` is a node of the inode's tree. */
  ghost predicate InTree(fs: Fs, ino: nat, l: Loc) {
    && ino in fs.roots && ScanInode(fs, ino).Scan?
    && (l == Root(ino) || (l.Blk? && l.block in ScanInode(fs, ino).visited))
  }

  /** What the scan of a readable inode says about its nodes and owners. */
  lemma TreeFacts(fs: Fs, ino: nat)
    requires ino in fs.roots && ScanInode(fs, ino).Scan?
    ensures At(fs, Root(ino)).Tree?
    ensures Gathered(fs, Root(ino), EMPTY, ScanInode(fs, ino))
    ensures Recorded(fs, Root(ino), ScanInode(fs, ino))
  {
    hide ScanNode;
    var n := At(fs, Root(ino)).node;
    ScanNodeGathers(fs, n, Depth(n), Root(ino), EMPTY);
  }

  lemma NodeRecorded(fs: Fs, ino: nat, l: Loc)
    requires InTree(fs, ino, l)
    ensures Recorded(fs, l, ScanInode(fs, ino))
  {
    hide ScanInode, Recorded;
    TreeFacts(fs, ino);
  }

  lemma OwnerFacts(fs: Fs, w: Owner)
    requires IsOwner(fs, w)
    ensures InTree(fs, w.ino, Container(w)) && Len(w) > 0
    ensures w.DataOwner? ==> OwnedFrom(fs, w.o)
    ensures w.TreeOwner? ==> RefFrom(fs, w.t) && InTree(fs, w.ino, Blk(w.t.block))
  {
    hide ScanInode, Recorded;
    TreeFacts(fs, w.ino);
  }

  lemma BlockIsOwned(fs: Fs, ino: nat, b: nat) returns (w: Owner)
    requires InTree(fs, ino, Blk(b))
    ensures w.TreeOwner? && IsOwner(fs, w) && w.ino == ino && Start(w) == b
  {
    hide ScanInode, Recorded;
    TreeFacts(fs, ino);
    assert b in ScanInode(fs, ino).visited - EMPTY.visited;
    var t :| t in ScanInode(fs, ino).trees && t.block == b;
    w := TreeOwner(ino, t);
  }

  // ---------- the plan ----------

  datatype MoveKind = DataExtent | TreeBlock

  datatype OwnerMove = OwnerMove(
    kind: MoveKind, transaction: nat, inode: nat, logical: nat,
    source: nat, destination: nat, count: nat, unwritten: bool, depth: nat)

  /** The move relocates this owner's range. */
  ghost predicate MovesOwner(m: OwnerMove, w: Owner) {
    && m.inode == w.ino && m.source == Start(w) && m.count == Len(w)
    && (m.kind == DataExtent <==> w.DataOwner?)
    && (w.DataOwner? ==> m.logical == w.o.extent.logical && m.unwritten == w.o.extent.unwritten)
  }

  /** A filesystem, the blocks it marks allocated, and a plan with the owner of each move. */
  datatype Plan = Plan(fs0: Fs, allocated0: set<nat>, moves: seq<OwnerMove>, owners: seq<Owner>)

  /** A readable filesystem whose owned ranges are disjoint and allocated (a clean deep check). */
  ghost predicate Sound(fs: Fs, used: set<nat>) {
    && (forall ino :: ino in fs.roots ==> ScanInode(fs, ino).Scan?)
    && (forall v, w :: IsOwner(fs, v) && IsOwner(fs, w) && v != w ==> Apart(Start(v), Len(v), Start(w), Len(w)))
    && (forall w :: IsOwner(fs, w) ==> Range(Start(w), Len(w)) <= used)
  }

  /** Each move takes one owner to free space of its own. */
  ghost predicate Planned(p: Plan) {
    && Sound(p.fs0, p.allocated0)
    && |p.owners| == |p.moves|
    && (forall i :: 0 <= i < |p.moves| ==> IsOwner(p.fs0, p.owners[i]) && MovesOwner(p.moves[i], p.owners[i]))
    && (forall i, j :: 0 <= i < j < |p.moves| ==> p.owners[i] != p.owners[j])
    && (forall i :: 0 <= i < |p.moves| ==>
          0 < p.moves[i].destination && p.moves[i].destination + p.moves[i].count <= p.fs0.blocksCount)
    && (forall i :: 0 <= i < |p.moves| ==> Range(p.moves[i].destination, p.moves[i].count) !! p.allocated0)
    && (forall i, j :: 0 <= i < |p.moves| && 0 <= j < |p.moves| && i != j ==>
          Apart(p.moves[i].destination, p.moves[i].count, p.moves[j].destination, p.moves[j].count))
  }

  /** `rho` is the set of moves already switched. */
  ghost predicate Partial(p: Plan, rho: Moves) {
    forall s :: s in rho ==> exists i :: 0 <= i < |p.moves| && p.moves[i].source == s && p.moves[i].destination == rho[s]
  }

  lemma OwnersApart(p: Plan, v: Owner, w: Owner)
    requires Planned(p) && IsOwner(p.fs0, v) && IsOwner(p.fs0, w)
    ensures v != w ==> Apart(Start(v), Len(v), Start(w), Len(w))
    ensures Start(v) == Start(w) ==> v == w
  {
    hide ScanInode;
    OwnerFacts(p.fs0, v);
    OwnerFacts(p.fs0, w);
  }

  /** The move behind an owner that has moved. */
  lemma MoveOf(p: Plan, rho: Moves, w: Owner) returns (i: nat)
    requires Planned(p) && Partial(p, rho) && IsOwner(p.fs0, w) && Start(w) in rho
    ensures i < |p.moves| && p.owners[i] == w && rho[Start(w)] == p.moves[i].destination && p.moves[i].count == Len(w)
  {
    hide IsOwner;
    i :| 0 <= i < |p.moves| && p.moves[i].source == Start(w) && p.moves[i].destination == rho[Start(w)];
    assert MovesOwner(p.moves[i], p.owners[i]);
    OwnersApart(p, p.owners[i], w);
  }

  lemma FreeIsApart(p: Plan, i: nat, w: Owner)
    requires Planned(p) && i < |p.moves| && IsOwner(p.fs0, w)
    ensures Apart(p.moves[i].destination, p.moves[i].count, Start(w), Len(w))
  {
    hide IsOwner;
    var d, n := p.moves[i].destination, p.moves[i].count;
    assert MovesOwner(p.moves[i], p.owners[i]);
    OwnerFacts(p.fs0, w);
    OwnerFacts(p.fs0, p.owners[i]);
    DisjointIsApart(d, n, Start(w), Len(w));
  }

  /** At every stage the present ranges of distinct owners are disjoint. */
  lemma PresentApart(p: Plan, rho: Moves, v: Owner, w: Owner)
    requires Planned(p) && Partial(p, rho) && IsOwner(p.fs0, v) && IsOwner(p.fs0, w) && v != w
    ensures Apart(Moved(rho, Start(v)), Len(v), Moved(rho, Start(w)), Len(w))
  {
    hide IsOwner;
    OwnersApart(p, v, w);
    if Start(v) in rho {
      var i := MoveOf(p, rho, v);
      FreeIsApart(p, i, w);
      if Start(w) in rho {
        var j := MoveOf(p, rho, w);
      }
    } else if Start(w) in rho {
      var j := MoveOf(p, rho, w);
      FreeIsApart(p, j, v);
    }
  }

  /** The destination of a move not yet switched touches no present range. */
  lemma DestinationUnused(p: Plan, rho: Moves, i: nat, w: Owner)
    requires Planned(p) && Partial(p, rho) && i < |p.moves| && p.moves[i].source !in rho && IsOwner(p.fs0, w)
    ensures Apart(p.moves[i].destination, p.moves[i].count, Moved(rho, Start(w)), Len(w))
  {
    hide IsOwner;
    FreeIsApart(p, i, w);
    if Start(w) in rho {
      var j := MoveOf(p, rho, w);
      assert MovesOwner(p.moves[i], p.owners[i]) && MovesOwner(p.moves[j], p.owners[j]);
    }
  }

  /** The source of a switched move touches no present range. */
  lemma SourceUnused(p: Plan, rho: Moves, i: nat, w: Owner)
    requires Planned(p) && Partial(p, rho) && i < |p.moves| && p.moves[i].source in rho && IsOwner(p.fs0, w)
    ensures Apart(p.moves[i].source, p.moves[i].count, Moved(rho, Start(w)), Len(w))
  {
    hide IsOwner;
    var v := p.owners[i];
    assert MovesOwner(p.moves[i], v);
    if Start(w) in rho {
      var j := MoveOf(p, rho, w);
      FreeIsApart(p, j, v);
    } else {
      OwnersApart(p, v, w);
    }
  }

  lemma ScanFits(p: Plan, rho: Moves, ino: nat)
    requires Planned(p) && Partial(p, rho) && ino in p.fs0.roots
    ensures Fits(rho, p.fs0.blocksCount, ScanInode(p.fs0, ino))
  {
    hide ScanInode;
    var fs := p.fs0;
    var r := ScanInode(fs, ino);
    forall b | b in r.visited ensures 0 < Moved(rho, b) < fs.blocksCount {
      var w := BlockIsOwned(fs, ino, b);
      OwnerFacts(fs, w);
      if b in rho { var i := MoveOf(p, rho, w); }
    }
    forall a, b | a in r.visited && b in r.visited && Moved(rho, a) == Moved(rho, b) ensures a == b {
      var v := BlockIsOwned(fs, ino, a);
      var w := BlockIsOwned(fs, ino, b);
      if v != w { PresentApart(p, rho, v, w); }
    }
    forall o | o in r.extents ensures ExtentOk(fs.blocksCount, MovedExtent(rho, o.extent)) {
      var w := DataOwner(ino, o);
      OwnerFacts(fs, w);
      if Start(w) in rho { var i := MoveOf(p, rho, w); }
    }
  }

  // ---------- the invariant of every disk ----------

  ghost predicate InMoves(p: Plan, b: nat) {
    exists i :: 0 <= i < |p.moves| &&
      (InRange(b, p.moves[i].source, p.moves[i].count) || InRange(b, p.moves[i].destination, p.moves[i].count))
  }

  /** The staged bytes of move `i` are untouched. */
  ghost predicate StagedIntact(p: Plan, fs: Fs, i: nat)
    requires i < |p.moves|
  {
    p.moves[i].kind == DataExtent ==>
      forall q :: InRange(q, p.moves[i].destination, p.moves[i].count) ==> BlockAt(fs, q) == BlockAt(p.fs0, q)
  }

  /**
   Every owner refers to its source or its destination, the whole of that range is marked allocated,
   and its bytes are the original ones; no block outside the plan changed its allocation.
   */
  ghost predicate Safe(p: Plan, rho: Moves, fs: Fs, used: set<nat>) {
    && Planned(p) && Partial(p, rho)
    && fs.blocksCount == p.fs0.blocksCount && fs.roots.Keys == p.fs0.roots.Keys
    && (forall ino, l :: InTree(p.fs0, ino, l) ==> Holds(p.fs0, rho, fs, l))
    && (forall w :: IsOwner(p.fs0, w) && w.DataOwner? ==> Kept(p.fs0, rho, fs, w.o.extent))
    && (forall w :: IsOwner(p.fs0, w) ==> Range(Moved(rho, Start(w)), Len(w)) <= used)
    && (forall b :: !InMoves(p, b) ==> (b in used <==> b in p.allocated0))
    && (forall i :: 0 <= i < |p.moves| && p.moves[i].source !in rho ==> StagedIntact(p, fs, i))
  }

  ghost predicate Undamaged(p: Plan, rho: Moves, fs: Fs) {
    forall ino, l :: InTree(p.fs0, ino, l) ==> At(fs, MovedLoc(rho, l)) != Damaged
  }

  /** Reads of every block of every file are what they were before the commit, or fail on a torn node. */
  lemma SafeReads(p: Plan, rho: Moves, fs: Fs, used: set<nat>, ino: nat, logical: nat)
    requires Safe(p, rho, fs, used) && ino in p.fs0.roots
    ensures Read(fs, ino, logical) == Unreadable || Read(fs, ino, logical) == Read(p.fs0, ino, logical)
    ensures Undamaged(p, rho, fs) ==> Read(fs, ino, logical) == Read(p.fs0, ino, logical)
    ensures Undamaged(p, rho, fs) ==> ScanInode(fs, ino) == MovedScan(rho, ScanInode(p.fs0, ino))
  {
    hide ScanInode, Holds, Kept, Read, Fits;
    var r := ScanInode(p.fs0, ino);
    ScanFits(p, rho, ino);
    assert InTree(p.fs0, ino, Root(ino));
    forall b | b in r.visited ensures Holds(p.fs0, rho, fs, Blk(b)) {
      assert InTree(p.fs0, ino, Blk(b));
    }
    forall o | o in r.extents ensures Kept(p.fs0, rho, fs, o.extent) {
      assert IsOwner(p.fs0, DataOwner(ino, o));
    }
    ReadPreserved(p.fs0, fs, rho, ino, logical);
    ScanInodeMoved(p.fs0, fs, rho, ino);
    if Undamaged(p, rho, fs) {
      assert At(fs, MovedLoc(rho, Root(ino))) != Damaged;
      forall b | b in r.visited ensures BlockAt(fs, Moved(rho, b)) != Damaged {
        assert InTree(p.fs0, ino, Blk(b));
      }
    }
  }

  /** The plan's own starting point is safe. */
  lemma SafeInitially(p: Plan)
    requires Planned(p)
    ensures Safe(p, map[], p.fs0, p.allocated0)
  {
    hide ScanInode, IsOwner, InTree, InMoves, Planned, Holds, Kept;
    forall ino, l | InTree(p.fs0, ino, l) ensures Holds(p.fs0, map[], p.fs0, l) {
      HoldsInitially(p.fs0, ino, l);
    }
    forall w | IsOwner(p.fs0, w) ensures Range(Moved(map[], Start(w)), Len(w)) <= p.allocated0 {
      OwnerUsed(p, w);
    }
    forall w | IsOwner(p.fs0, w) && w.DataOwner? ensures Kept(p.fs0, map[], p.fs0, w.o.extent) {
      KeptInitially(p.fs0, w.o.extent);
    }
  }

  lemma OwnerUsed(p: Plan, w: Owner)
    requires Planned(p) && IsOwner(p.fs0, w)
    ensures Range(Start(w), Len(w)) <= p.allocated0
  {
    hide IsOwner;
  }

  lemma KeptInitially(fs: Fs, e: Extent)
    ensures Kept(fs, map[], fs, e)
  {
    forall q | e.physical <= q < e.physical + e.length
      ensures BlockAt(fs, Moved(map[], e.physical) + (q - e.physical)) == BlockAt(fs, q)
    {
      assert Moved(map[], e.physical) + (q - e.physical) == q;
    }
  }

  lemma HoldsInitially(fs: Fs, ino: nat, l: Loc)
    requires InTree(fs, ino, l)
    ensures Holds(fs, map[], fs, l)
  {
    hide InTree;
    NodeIsTree(fs, ino, l);
    assert MovedNode(map[], At(fs, l).node) == At(fs, l).node;
  }

  lemma NodeIsTree(fs: Fs, ino: nat, l: Loc)
    requires InTree(fs, ino, l)
    ensures At(fs, l).Tree?
  {
    hide ScanInode;
    NodeRecorded(fs, ino, l);
  }

  lemma MovedByNothing(n: Node)
    ensures MovedNode(map[], n) == n
  {
  }

  // ---------- allocation steps ----------

  lemma ReserveSafe(p: Plan, rho: Moves, fs: Fs, used: set<nat>, i: nat, used': set<nat>)
    requires Safe(p, rho, fs, used) && i < |p.moves|
    requires used <= used' <= used + Range(p.moves[i].destination, p.moves[i].count)
    ensures Safe(p, rho, fs, used')
  {
    hide IsOwner, InTree, Holds, Kept, Planned, Partial, StagedIntact;
    forall b | !InMoves(p, b) ensures b in used' <==> b in p.allocated0 {
      assert !InRange(b, p.moves[i].destination, p.moves[i].count);
    }
  }

  lemma ReleaseSafe(p: Plan, rho: Moves, fs: Fs, used: set<nat>, i: nat, used': set<nat>)
    requires Safe(p, rho, fs, used) && i < |p.moves| && p.moves[i].source in rho
    requires used - Range(p.moves[i].source, p.moves[i].count) <= used' <= used
    ensures Safe(p, rho, fs, used')
  {
    hide IsOwner, InTree, Holds, Kept, Planned, Partial, StagedIntact;
    forall b | !InMoves(p, b) ensures b in used' <==> b in p.allocated0 {
      assert !InRange(b, p.moves[i].source, p.moves[i].count);
    }
    forall w | IsOwner(p.fs0, w) ensures Range(Moved(rho, Start(w)), Len(w)) <= used' {
      SourceUnused(p, rho, i, w);
    }
  }

  // ---------- block writes ----------

  function SetAt(fs: Fs, l: Loc, b: Block): Fs {
    match l
    case Root(ino) => fs.(roots := fs.roots[ino := b])
    case Blk(n) => fs.(blocks := fs.blocks[n := b])
  }

  lemma HoldsElsewhere(fs0: Fs, rho: Moves, fs: Fs, at: Loc, b: Block, l: Loc)
    requires Holds(fs0, rho, fs, l) && MovedLoc(rho, l) != at
    ensures Holds(fs0, rho, SetAt(fs, at, b), l)
  {
  }

  lemma KeptElsewhere(fs0: Fs, rho: Moves, fs: Fs, at: Loc, b: Block, e: Extent)
    requires Kept(fs0, rho, fs, e)
    requires at.Blk? ==> !InRange(at.block, Moved(rho, e.physical), e.length)
    ensures Kept(fs0, rho, SetAt(fs, at, b), e)
  {
  }

  lemma StagedElsewhere(p: Plan, fs: Fs, at: Loc, b: Block, i: nat)
    requires i < |p.moves| && StagedIntact(p, fs, i)
    requires p.moves[i].kind == DataExtent && at.Blk? ==> !InRange(at.block, p.moves[i].destination, p.moves[i].count)
    ensures StagedIntact(p, SetAt(fs, at, b), i)
  {
  }

  /** Any write to a tree block's pending destination is invisible. */
  lemma CopySafe(p: Plan, rho: Moves, fs: Fs, used: set<nat>, i: nat, b: Block)
    requires Safe(p, rho, fs, used) && i < |p.moves| && p.moves[i].kind == TreeBlock && p.moves[i].source !in rho
    ensures Safe(p, rho, SetAt(fs, Blk(p.moves[i].destination), b), used)
  {
    hide IsOwner, InTree, ScanInode, Partial, Holds, Kept, StagedIntact;
    var d := Blk(p.moves[i].destination);
    var fs' := SetAt(fs, d, b);
    assert MovesOwner(p.moves[i], p.owners[i]);
    forall ino, l | InTree(p.fs0, ino, l) ensures Holds(p.fs0, rho, fs', l) {
      if l.Blk? {
        var w := BlockIsOwned(p.fs0, ino, l.block);
        DestinationUnused(p, rho, i, w);
      }
      HoldsElsewhere(p.fs0, rho, fs, d, b, l);
    }
    forall w | IsOwner(p.fs0, w) && w.DataOwner? ensures Kept(p.fs0, rho, fs', w.o.extent) {
      DestinationUnused(p, rho, i, w);
      KeptElsewhere(p.fs0, rho, fs, d, b, w.o.extent);
    }
    forall j | 0 <= j < |p.moves| && p.moves[j].source !in rho ensures StagedIntact(p, fs', j) {
      StagedElsewhere(p, fs, d, b, j);
    }
  }

  /** A present tree location holds no file data and nothing staged. */
  lemma NodeApart(p: Plan, rho: Moves, ino: nat, l: Loc)
    requires Planned(p) && Partial(p, rho) && InTree(p.fs0, ino, l) && l.Blk?
    ensures forall w :: IsOwner(p.fs0, w) && w.DataOwner? ==>
      !InRange(Moved(rho, l.block), Moved(rho, Start(w)), Len(w))
    ensures forall i :: 0 <= i < |p.moves| && p.moves[i].source !in rho ==>
      !InRange(Moved(rho, l.block), p.moves[i].destination, p.moves[i].count)
  {
    hide IsOwner, ScanInode, Partial;
    var v := BlockIsOwned(p.fs0, ino, l.block);
    forall w | IsOwner(p.fs0, w) && w.DataOwner?
      ensures !InRange(Moved(rho, l.block), Moved(rho, Start(w)), Len(w))
    {
      PresentApart(p, rho, v, w);
    }
    forall i | 0 <= i < |p.moves| && p.moves[i].source !in rho
      ensures !InRange(Moved(rho, l.block), p.moves[i].destination, p.moves[i].count)
    {
      DestinationUnused(p, rho, i, v);
    }
  }

  lemma LocsDistinct(p: Plan, rho: Moves, ino: nat, l: Loc, ino': nat, l': Loc)
    requires Planned(p) && Partial(p, rho) && InTree(p.fs0, ino, l) && InTree(p.fs0, ino', l') && l != l'
    ensures MovedLoc(rho, l) != MovedLoc(rho, l')
  {
    hide IsOwner, ScanInode, Partial;
    if l.Blk? && l'.Blk? {
      var v := BlockIsOwned(p.fs0, ino, l.block);
      var w := BlockIsOwned(p.fs0, ino', l'.block);
      PresentApart(p, rho, v, w);
    }
  }

  /** A torn node leaves everything else in place. */
  lemma DamageSafe(p: Plan, rho: Moves, fs: Fs, used: set<nat>, ino: nat, l: Loc)
    requires Safe(p, rho, fs, used) && InTree(p.fs0, ino, l)
    ensures Safe(p, rho, SetAt(fs, MovedLoc(rho, l), Damaged), used)
  {
    hide IsOwner, InTree, ScanInode, Partial, Planned, Kept, StagedIntact;
    var at := MovedLoc(rho, l);
    var fs' := SetAt(fs, at, Damaged);
    if l.Blk? { NodeApart(p, rho, ino, l); }
    RootPresent(p, rho, fs, used, ino, l);
    forall ino', l' | InTree(p.fs0, ino', l') ensures Holds(p.fs0, rho, fs', l') {
      assert Holds(p.fs0, rho, fs, l');
      if l' != l { LocsDistinct(p, rho, ino, l, ino', l'); }
    }
    forall w | IsOwner(p.fs0, w) && w.DataOwner? ensures Kept(p.fs0, rho, fs', w.o.extent) {
      KeptElsewhere(p.fs0, rho, fs, at, Damaged, w.o.extent);
    }
    forall j | 0 <= j < |p.moves| && p.moves[j].source !in rho ensures StagedIntact(p, fs', j) {
      StagedElsewhere(p, fs, at, Damaged, j);
    }
  }

  lemma RootPresent(p: Plan, rho: Moves, fs: Fs, used: set<nat>, ino: nat, l: Loc)
    requires Safe(p, rho, fs, used) && InTree(p.fs0, ino, l)
    ensures l.Root? ==> l.ino in fs.roots
  {
  }

  // ---------- switching an owner ----------

  /** The node with entry `index` pointing at `block`. */
  function Redirect(n: Node, index: nat, block: nat): (r: Node)
    requires index < Size(n)
  {
    match n
    case Leaf(es) => Leaf(es[index := es[index].(physical := block)])
    case Branch(d, ps) => Branch(d, ps[index := ps[index].(child := block)])
  }

  /** The block entry `j` refers to. */
  function EntryStart(n: Node, j: nat): nat
    requires j < Size(n)
  {
    match n case Leaf(es) => es[j].physical case Branch(_, ps) => ps[j].child
  }

  /** The owner behind entry `j` of a node. */
  lemma EntryOwner(fs: Fs, ino: nat, l: Loc, j: nat) returns (w: Owner)
    requires InTree(fs, ino, l) && At(fs, l).Tree? && j < Size(At(fs, l).node)
    ensures IsOwner(fs, w) && Container(w) == l && Slot(w) == j && Start(w) == EntryStart(At(fs, l).node, j)
  {
    hide ScanInode;
    NodeRecorded(fs, ino, l);
    match At(fs, l).node
    case Leaf(es) => w := DataOwner(ino, Owned(es[j], l, j));
    case Branch(d, ps) => w := TreeOwner(ino, TreeRef(ps[j].child, l, j, d - 1));
  }

  lemma RedirectMoved(rho: Moves, s: nat, d: nat, n: Node, index: nat)
    requires index < Size(n) && s !in rho
    requires forall j :: 0 <= j < Size(n) ==> (EntryStart(n, j) == s <==> j == index)
    ensures MovedNode(rho[s := d], n) == Redirect(MovedNode(rho, n), index, d)
  {
    match n
    case Leaf(es) =>
      forall j | 0 <= j < |es|
        ensures MovedNode(rho[s := d], n).extents[j] == Redirect(MovedNode(rho, n), index, d).extents[j]
      {
        assert EntryStart(n, j) == es[j].physical;
      }
    case Branch(_, ps) =>
      forall j | 0 <= j < |ps|
        ensures MovedNode(rho[s := d], n).pointers[j] == Redirect(MovedNode(rho, n), index, d).pointers[j]
      {
        assert EntryStart(n, j) == ps[j].child;
      }
  }

  lemma UnaffectedNode(rho: Moves, s: nat, d: nat, n: Node)
    requires forall j :: 0 <= j < Size(n) ==> EntryStart(n, j) != s
    ensures MovedNode(rho[s := d], n) == MovedNode(rho, n)
  {
    match n
    case Leaf(es) => assert forall j :: 0 <= j < |es| ==> EntryStart(n, j) == es[j].physical;
    case Branch(_, ps) => assert forall j :: 0 <= j < |ps| ==> EntryStart(n, j) == ps[j].child;
  }

  lemma SwitchNode(p: Plan, rho: Moves, i: nat)
    requires Planned(p) && Partial(p, rho) && i < |p.moves| && p.moves[i].source !in rho
    ensures var w := p.owners[i];
      && At(p.fs0, Container(w)).Tree? && Slot(w) < Size(At(p.fs0, Container(w)).node)
      && MovedNode(rho[p.moves[i].source := p.moves[i].destination], At(p.fs0, Container(w)).node)
         == Redirect(MovedNode(rho, At(p.fs0, Container(w)).node), Slot(w), p.moves[i].destination)
  {
    hide IsOwner, InTree, ScanInode, Partial;
    var w := p.owners[i];
    var m := p.moves[i];
    assert MovesOwner(m, w);
    OwnerFacts(p.fs0, w);
    var l := Container(w);
    var n := At(p.fs0, l).node;
    forall j | 0 <= j < Size(n)
      ensures EntryStart(n, j) == m.source <==> j == Slot(w)
    {
      var v := EntryOwner(p.fs0, w.ino, l, j);
      OwnersApart(p, v, w);
    }
    RedirectMoved(rho, m.source, m.destination, n, Slot(w));
  }

  lemma OtherNode(p: Plan, rho: Moves, i: nat, ino: nat, l: Loc)
    requires Planned(p) && Partial(p, rho) && i < |p.moves| && p.moves[i].source !in rho
    requires InTree(p.fs0, ino, l) && l != Container(p.owners[i])
    ensures At(p.fs0, l).Tree?
    ensures MovedNode(rho[p.moves[i].source := p.moves[i].destination], At(p.fs0, l).node) == MovedNode(rho, At(p.fs0, l).node)
  {
    hide IsOwner, InTree, ScanInode, Partial;
    var w := p.owners[i];
    var m := p.moves[i];
    assert MovesOwner(m, w);
    NodeIsTree(p.fs0, ino, l);
    var n := At(p.fs0, l).node;
    forall j | 0 <= j < Size(n)
      ensures EntryStart(n, j) != m.source
    {
      var v := EntryOwner(p.fs0, ino, l, j);
      OwnersApart(p, v, w);
    }
    UnaffectedNode(rho, m.source, m.destination, n);
  }

  /** Everything but the switched owner is where it was. */
  lemma OtherOwner(p: Plan, rho: Moves, i: nat, w: Owner)
    requires Planned(p) && i < |p.moves| && IsOwner(p.fs0, w) && w != p.owners[i]
    ensures Moved(rho[p.moves[i].source := p.moves[i].destination], Start(w)) == Moved(rho, Start(w))
  {
    hide IsOwner;
    assert MovesOwner(p.moves[i], p.owners[i]);
    OwnersApart(p, p.owners[i], w);
  }

  lemma PartialGrows(p: Plan, rho: Moves, i: nat)
    requires Partial(p, rho) && i < |p.moves|
    ensures Partial(p, rho[p.moves[i].source := p.moves[i].destination])
  {
    var rho' := rho[p.moves[i].source := p.moves[i].destination];
    forall s | s in rho'
      ensures exists j :: 0 <= j < |p.moves| && p.moves[j].source == s && p.moves[j].destination == rho'[s]
    {
      if s == p.moves[i].source {
        assert p.moves[i].source == s && p.moves[i].destination == rho'[s];
      } else {
        var j :| 0 <= j < |p.moves| && p.moves[j].source == s && p.moves[j].destination == rho[s];
      }
    }
  }

  /** The destination already holds what the source holds. */
  ghost predicate CopyReady(p: Plan, rho: Moves, fs: Fs, i: nat)
    requires i < |p.moves| && i < |p.owners|
  {
    var m := p.moves[i];
    match p.owners[i]
    case DataOwner(_, o) => Kept(p.fs0, rho[m.source := m.destination], fs, o.extent)
    case TreeOwner(_, t) => BlockAt(fs, m.destination) == BlockAt(fs, m.source)
  }

  /** The owner switch: one entry of one node now names the destination. */
  lemma SwitchSafe(p: Plan, rho: Moves, fs: Fs, used: set<nat>, i: nat)
    requires Safe(p, rho, fs, used) && i < |p.moves| && p.moves[i].source !in rho
    requires Range(p.moves[i].destination, p.moves[i].count) <= used
    requires CopyReady(p, rho, fs, i)
    requires At(fs, MovedLoc(rho, Container(p.owners[i]))).Tree?
    requires p.owners[i].TreeOwner? ==> At(fs, Blk(p.moves[i].source)).Tree?
    ensures var w := p.owners[i];
      var at := MovedLoc(rho, Container(w));
      && Slot(w) < Size(At(fs, at).node)
      && Safe(p, rho[p.moves[i].source := p.moves[i].destination],
              SetAt(fs, at, Tree(Redirect(At(fs, at).node, Slot(w), p.moves[i].destination))), used)
  {
    hide IsOwner, InTree, ScanInode, Partial, Planned, Kept, StagedIntact, CopyReady, Holds, Redirect, MovedNode;
    MoveFacts(p, i);
    var w := p.owners[i];
    var m := p.moves[i];
    var l := Container(w);
    var at := MovedLoc(rho, l);
    var rho' := rho[m.source := m.destination];
    OwnerFacts(p.fs0, w);
    SwitchNode(p, rho, i);
    PresentNode(p, rho, fs, used, w.ino, l);
    var node := Redirect(At(fs, at).node, Slot(w), m.destination);
    var fs' := SetAt(fs, at, Tree(node));
    PartialGrows(p, rho, i);
    if l.Blk? { NodeApart(p, rho, w.ino, l); }
    RootPresent(p, rho, fs, used, w.ino, l);
    forall ino', l' | InTree(p.fs0, ino', l') ensures Holds(p.fs0, rho', fs', l') {
      SwitchHolds(p, rho, fs, used, i, ino', l');
    }
    forall v | IsOwner(p.fs0, v) && v.DataOwner? ensures Kept(p.fs0, rho', fs', v.o.extent) {
      SwitchKept(p, rho, fs, used, i, v, Tree(node));
    }
    forall v | IsOwner(p.fs0, v) ensures Range(Moved(rho', Start(v)), Len(v)) <= used {
      if v != w { OtherOwner(p, rho, i, v); }
    }
    forall j | 0 <= j < |p.moves| && p.moves[j].source !in rho' ensures StagedIntact(p, fs', j) {
      StagedElsewhere(p, fs, at, Tree(node), j);
    }
  }

  lemma MoveFacts(p: Plan, i: nat)
    requires Planned(p) && i < |p.moves|
    ensures |p.owners| == |p.moves| && IsOwner(p.fs0, p.owners[i]) && MovesOwner(p.moves[i], p.owners[i])
  {
    hide IsOwner;
  }

  lemma PresentNode(p: Plan, rho: Moves, fs: Fs, used: set<nat>, ino: nat, l: Loc)
    requires Safe(p, rho, fs, used) && InTree(p.fs0, ino, l) && At(fs, MovedLoc(rho, l)).Tree?
    ensures At(p.fs0, l).Tree? && At(fs, MovedLoc(rho, l)) == Tree(MovedNode(rho, At(p.fs0, l).node))
  {
    hide InTree, IsOwner, Planned, Partial;
    assert Holds(p.fs0, rho, fs, l);
  }

  lemma SwitchHolds(p: Plan, rho: Moves, fs: Fs, used: set<nat>, i: nat, ino: nat, l: Loc)
    requires Safe(p, rho, fs, used) && i < |p.moves| && p.moves[i].source !in rho && CopyReady(p, rho, fs, i)
    requires At(fs, MovedLoc(rho, Container(p.owners[i]))).Tree?
    requires p.owners[i].TreeOwner? ==> At(fs, Blk(p.moves[i].source)).Tree?
    requires InTree(p.fs0, ino, l)
    requires Slot(p.owners[i]) < Size(At(fs, MovedLoc(rho, Container(p.owners[i]))).node)
    ensures var at := MovedLoc(rho, Container(p.owners[i]));
      Holds(p.fs0, rho[p.moves[i].source := p.moves[i].destination],
            SetAt(fs, at, Tree(Redirect(At(fs, at).node, Slot(p.owners[i]), p.moves[i].destination))), l)
  {
    hide IsOwner, InTree, ScanInode, Partial, Planned, Kept, StagedIntact, Redirect, MovedNode, InMoves;
    MoveFacts(p, i);
    var w := p.owners[i];
    var m := p.moves[i];
    var c := Container(w);
    var at := MovedLoc(rho, c);
    var rho' := rho[m.source := m.destination];
    OwnerFacts(p.fs0, w);
    SwitchNode(p, rho, i);
    PresentNode(p, rho, fs, used, w.ino, c);
    assert Holds(p.fs0, rho, fs, l);
    // the switched block itself, when a tree block moves
    if l.Blk? && l.block == m.source {
      var v := BlockIsOwned(p.fs0, ino, l.block);
      OwnersApart(p, v, w);
      assert v == w;
      if l == c { ContainerIsNotSelf(p, i); }
      OtherNode(p, rho, i, ino, l);
      PresentNode(p, rho, fs, used, ino, l);
      if c.Blk? {
        var u := BlockIsOwned(p.fs0, w.ino, c.block);
        DestinationUnused(p, rho, i, u);
      }
    } else {
      assert MovedLoc(rho', l) == MovedLoc(rho, l);
      if l != c {
        OtherNode(p, rho, i, ino, l);
        LocsDistinct(p, rho, ino, l, w.ino, c);
      }
    }
  }

  /** An index entry never refers to the block that contains it. */
  lemma ContainerIsNotSelf(p: Plan, i: nat)
    requires Planned(p) && i < |p.moves|
    ensures |p.owners| == |p.moves| && Container(p.owners[i]) != Blk(p.moves[i].source)
  {
    hide IsOwner, ScanInode, InTree;
    MoveFacts(p, i);
    var w := p.owners[i];
    OwnerFacts(p.fs0, w);
    if Container(w).Blk? {
      var v := BlockIsOwned(p.fs0, w.ino, Container(w).block);
      OwnerFacts(p.fs0, v);
      OwnersApart(p, v, w);
    }
  }

  lemma KeptSamePlace(fs0: Fs, rho: Moves, rho': Moves, fs: Fs, e: Extent)
    requires Kept(fs0, rho, fs, e) && Moved(rho', e.physical) == Moved(rho, e.physical)
    ensures Kept(fs0, rho', fs, e)
  {
  }

  lemma SwitchKept(p: Plan, rho: Moves, fs: Fs, used: set<nat>, i: nat, v: Owner, b: Block)
    requires Safe(p, rho, fs, used) && i < |p.moves| && p.moves[i].source !in rho && CopyReady(p, rho, fs, i)
    requires IsOwner(p.fs0, v) && v.DataOwner?
    ensures var at := MovedLoc(rho, Container(p.owners[i]));
      Kept(p.fs0, rho[p.moves[i].source := p.moves[i].destination], SetAt(fs, at, b), v.o.extent)
  {
    hide IsOwner, InTree, ScanInode, Partial, Planned, StagedIntact, InMoves, Holds, Kept;
    MoveFacts(p, i);
    var w := p.owners[i];
    var m := p.moves[i];
    var c := Container(w);
    var at := MovedLoc(rho, c);
    OwnerFacts(p.fs0, w);
    if c.Blk? { NodeApart(p, rho, w.ino, c); }
    var rho' := rho[m.source := m.destination];
    if v == w {
      assert c.Blk? ==> !InRange(at.block, m.destination, m.count);
    } else {
      OtherOwner(p, rho, i, v);
      KeptSamePlace(p.fs0, rho, rho', fs, v.o.extent);
    }
    KeptElsewhere(p.fs0, rho', fs, at, b, v.o.extent);
  }
}
