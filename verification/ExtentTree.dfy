/**
 ext4 extent trees as src/ext4/extents.cpp walks them: an inode root, index blocks and leaf blocks,
 each node checked for depth, order, range and cycles.
 */
module ExtentTree {

  datatype Extent = Extent(logical: nat, physical: nat, length: nat, unwritten: bool)

  datatype Pointer = Pointer(logical: nat, child: nat)

  datatype Node = Leaf(extents: seq<Extent>) | Branch(depth: nat, pointers: seq<Pointer>)

  /** A block's content: file data, an extent node whose checksum matches, or neither. */
  datatype Block = Data(bytes: nat) | Tree(node: Node) | Damaged

  /** Where a node lives. */
  datatype Loc = Root(ino: nat) | Blk(block: nat)

  datatype Fs = Fs(blocksCount: nat, roots: map<nat, Block>, blocks: map<nat, Block>)

  function BlockAt(fs: Fs, b: nat): Block {
    if b in fs.blocks then fs.blocks[b] else Damaged
  }

  function At(fs: Fs, l: Loc): Block {
    match l
    case Root(ino) => if ino in fs.roots then fs.roots[ino] else Damaged
    case Blk(b) => BlockAt(fs, b)
  }

  function Depth(n: Node): nat {
    match n case Leaf(_) => 0 case Branch(d, _) => d
  }

  function Size(n: Node): nat {
    match n case Leaf(es) => |es| case Branch(_, ps) => |ps|
  }

  // ---------- the scan ----------

  datatype Owned = Owned(extent: Extent, container: Loc, index: nat)

  datatype TreeRef = TreeRef(block: nat, parent: Loc, index: nat, depth: nat)

  datatype Scan = Scan(extents: seq<Owned>, trees: seq<TreeRef>, visited: set<nat>) | Corrupt

  predicate ExtentOk(blocksCount: nat, e: Extent) {
    e.length != 0 && e.physical != 0 && e.physical < blocksCount && e.length <= blocksCount - e.physical
  }

  predicate LeafOk(blocksCount: nat, es: seq<Extent>) {
    forall i :: 0 <= i < |es| ==>
      ExtentOk(blocksCount, es[i]) && (i > 0 ==> es[i - 1].logical + es[i - 1].length <= es[i].logical)
  }

  function OwnedOf(es: seq<Extent>, at: Loc): (r: seq<Owned>)
    ensures |r| == |es| && forall i :: 0 <= i < |es| ==> r[i] == Owned(es[i], at, i)
  {
    seq(|es|, i requires 0 <= i < |es| => Owned(es[i], at, i))
  }

  /** parse_extent_node as a function of the disk and of what was collected so far. */
  function ScanNode(fs: Fs, node: Node, expected: nat, at: Loc, s: Scan): (r: Scan)
    requires s.Scan?
    decreases expected, 1, 0
  {
    if Depth(node) != expected || expected > 5 then Corrupt
    else match node
      case Leaf(es) =>
        if LeafOk(fs.blocksCount, es) then Scan(s.extents + OwnedOf(es, at), s.trees, s.visited) else Corrupt
      case Branch(d, ps) =>
        if d == 0 then Corrupt else ScanPointers(fs, ps, d, at, 0, s)
  }

  predicate PointerOk(fs: Fs, ps: seq<Pointer>, i: nat)
    requires i < |ps|
  {
    && (i > 0 ==> ps[i - 1].logical < ps[i].logical)
    && ps[i].child != 0 && ps[i].child < fs.blocksCount
  }

  /** The scan state once pointer `i` has been recorded. */
  function Enter(s: Scan, ps: seq<Pointer>, i: nat, d: nat, at: Loc): Scan
    requires s.Scan? && i < |ps| && d > 0
  {
    Scan(s.extents, s.trees + [TreeRef(ps[i].child, at, i, d - 1)], s.visited + {ps[i].child})
  }

  function ScanPointers(fs: Fs, ps: seq<Pointer>, d: nat, at: Loc, i: nat, s: Scan): (r: Scan)
    requires s.Scan? && d > 0 && i <= |ps|
    decreases d, 0, |ps| - i
  {
    if i == |ps| then s
    else if !PointerOk(fs, ps, i) || ps[i].child in s.visited then Corrupt
    else match BlockAt(fs, ps[i].child)
      case Tree(n) =>
        var r := ScanNode(fs, n, d - 1, Blk(ps[i].child), Enter(s, ps, i, d, at));
        if r.Corrupt? then Corrupt else ScanPointers(fs, ps, d, at, i + 1, r)
      case _ => Corrupt
  }

  /** One pointer of the walk, unfolded. */
  lemma PointersStep(fs: Fs, ps: seq<Pointer>, d: nat, at: Loc, i: nat, s: Scan)
    requires s.Scan? && d > 0 && i < |ps|
    ensures var b := BlockAt(fs, ps[i].child);
      ScanPointers(fs, ps, d, at, i, s) ==
        if !PointerOk(fs, ps, i) || ps[i].child in s.visited || !b.Tree? then Corrupt
        else
          var r := ScanNode(fs, b.node, d - 1, Blk(ps[i].child), Enter(s, ps, i, d, at));
          if r.Corrupt? then Corrupt else ScanPointers(fs, ps, d, at, i + 1, r)
  {
  }

  const EMPTY: Scan := Scan([], [], {})

  /** scan_specific_inode over an active extent-mapped inode. */
  function ScanInode(fs: Fs, ino: nat): Scan {
    match At(fs, Root(ino))
    case Tree(n) => ScanNode(fs, n, Depth(n), Root(ino), EMPTY)
    case _ => Corrupt
  }

  /** The shared parse context: what the recursive walk appends to. */
  class ParseContext {
    const fs: Fs
    var extents: seq<Owned>
    var trees: seq<TreeRef>
    var visited: set<nat>

    constructor (disk: Fs)
      ensures fs == disk && State() == EMPTY
    {
      fs, extents, trees, visited := disk, [], [], {};
    }

    function State(): Scan
      reads this
    {
      Scan(extents, trees, visited)
    }

    /** parse_extent_node: stops at the first violation, otherwise collects exactly the scan. */
    method ParseNode(node: Node, expected: nat, at: Loc) returns (ok: bool)
      modifies this
      ensures ok <==> old(ScanNode(fs, node, expected, at, State())).Scan?
      ensures ok ==> State() == old(ScanNode(fs, node, expected, at, State()))
      decreases expected, 1
    {
      if Depth(node) != expected || expected > 5 { return false; }
      match node
      case Leaf(es) =>
        ok := ParseLeaf(es, at);
      case Branch(d, ps) =>
        if d == 0 { return false; }
        ok := ParsePointers(ps, d, at);
    }

    method ParseLeaf(es: seq<Extent>, at: Loc) returns (ok: bool)
      modifies this
      ensures ok <==> LeafOk(fs.blocksCount, es)
      ensures ok ==> State() == old(Scan(extents + OwnedOf(es, at), trees, visited))
    {
      var lastEnd := 0;
      for i := 0 to |es|
        invariant forall j :: 0 <= j < i ==>
          ExtentOk(fs.blocksCount, es[j]) && (j > 0 ==> es[j - 1].logical + es[j - 1].length <= es[j].logical)
        invariant lastEnd == if i == 0 then 0 else es[i - 1].logical + es[i - 1].length
        invariant trees == old(trees) && visited == old(visited)
        invariant extents == old(extents) + OwnedOf(es, at)[..i]
      {
        var e := es[i];
        if !ExtentOk(fs.blocksCount, e) || (i > 0 && e.logical < lastEnd) {
          return false;
        }
        lastEnd := e.logical + e.length;
        extents := extents + [Owned(e, at, i)];
        assert OwnedOf(es, at)[..i + 1] == OwnedOf(es, at)[..i] + [OwnedOf(es, at)[i]];
      }
      assert es[..|es|] == es && OwnedOf(es, at)[..|es|] == OwnedOf(es, at);
      ok := true;
    }

    method ParsePointers(ps: seq<Pointer>, d: nat, at: Loc) returns (ok: bool)
      requires d > 0
      modifies this
      ensures ok <==> old(ScanPointers(fs, ps, d, at, 0, State())).Scan?
      ensures ok ==> State() == old(ScanPointers(fs, ps, d, at, 0, State()))
      decreases d, 0
    {
      ghost var goal := ScanPointers(fs, ps, d, at, 0, State());
      for i := 0 to |ps|
        invariant ScanPointers(fs, ps, d, at, i, State()) == goal
      {
        var child := ps[i].child;
        if !PointerOk(fs, ps, i) || child in visited { return false; }
        var b := BlockAt(fs, child);
        visited := visited + {child};
        trees := trees + [TreeRef(child, at, i, d - 1)];
        if !b.Tree? { return false; }
        ok := ParseNode(b.node, d - 1, Blk(child));
        if !ok { return false; }
      }
      ok := true;
    }
  }

  // ---------- what a successful scan has seen ----------

  /** Every entry of the node at `l` is in the scan. */
  ghost predicate Recorded(fs: Fs, l: Loc, r: Scan) {
    && r.Scan? && At(fs, l).Tree?
    && match At(fs, l).node
       case Leaf(es) => forall i :: 0 <= i < |es| ==> Owned(es[i], l, i) in r.extents
       case Branch(d, ps) => d > 0 && forall i :: 0 <= i < |ps| ==> TreeRef(ps[i].child, l, i, d - 1) in r.trees
  }

  /** The scan entry is an entry of the node it names. */
  ghost predicate OwnedFrom(fs: Fs, o: Owned) {
    && At(fs, o.container).Tree? && At(fs, o.container).node.Leaf?
    && o.index < |At(fs, o.container).node.extents| && At(fs, o.container).node.extents[o.index] == o.extent
    && ExtentOk(fs.blocksCount, o.extent)
  }

  ghost predicate RefFrom(fs: Fs, t: TreeRef) {
    && At(fs, t.parent).Tree? && At(fs, t.parent).node.Branch?
    && t.index < |At(fs, t.parent).node.pointers| && At(fs, t.parent).node.pointers[t.index].child == t.block
    && 0 < t.block < fs.blocksCount
    && At(fs, t.parent).node.depth == t.depth + 1
    && BlockAt(fs, t.block).Tree? && Depth(BlockAt(fs, t.block).node) == t.depth
  }

  ghost predicate Inside(l: Loc, at: Loc, blocks: set<nat>) {
    l == at || (l.Blk? && l.block in blocks)
  }

  /** What `r` holds beyond `s`, gathered below the node at `at`. */
  ghost predicate Gathered(fs: Fs, at: Loc, s: Scan, r: Scan) {
    && s.Scan? && r.Scan? && s.visited <= r.visited
    && (forall o :: o in s.extents ==> o in r.extents)
    && (forall t :: t in s.trees ==> t in r.trees)
    && (forall o :: o in r.extents && o !in s.extents ==>
          OwnedFrom(fs, o) && Inside(o.container, at, r.visited - s.visited))
    && (forall t :: t in r.trees && t !in s.trees ==>
          RefFrom(fs, t) && Inside(t.parent, at, r.visited - s.visited) && t.block in r.visited - s.visited)
    && (forall b :: b in r.visited - s.visited ==> Recorded(fs, Blk(b), r))
    && (forall b :: b in r.visited - s.visited ==> exists t :: t in r.trees && t.block == b)
  }

  lemma GatheredTrans(fs: Fs, at: Loc, below: Loc, s: Scan, m: Scan, r: Scan)
    requires Gathered(fs, at, s, m) && Gathered(fs, below, m, r)
    requires Inside(below, at, m.visited - s.visited)
    ensures Gathered(fs, at, s, r)
  {
    hide OwnedFrom, RefFrom, Recorded;
    forall b | b in r.visited - s.visited
      ensures Recorded(fs, Blk(b), r)
      ensures exists t :: t in r.trees && t.block == b
    {
      if b in m.visited {
        assert b in m.visited - s.visited;
        var t :| t in m.trees && t.block == b;
        assert t in r.trees;
        RecordedGrows(fs, Blk(b), m, r);
      } else {
        assert b in r.visited - m.visited;
      }
    }
  }

  lemma RecordedGrows(fs: Fs, l: Loc, m: Scan, r: Scan)
    requires Recorded(fs, l, m) && r.Scan?
    requires forall o :: o in m.extents ==> o in r.extents
    requires forall t :: t in m.trees ==> t in r.trees
    ensures Recorded(fs, l, r)
  {
  }

  lemma {:induction false} ScanNodeGathers(fs: Fs, node: Node, expected: nat, at: Loc, s: Scan)
    requires s.Scan? && At(fs, at) == Tree(node)
    requires ScanNode(fs, node, expected, at, s).Scan?
    ensures Gathered(fs, at, s, ScanNode(fs, node, expected, at, s))
    ensures Recorded(fs, at, ScanNode(fs, node, expected, at, s))
    decreases expected, 1, 0
  {
    match node
    case Leaf(es) =>
      var r := ScanNode(fs, node, expected, at, s);
      var mine := OwnedOf(es, at);
      assert r.extents == s.extents + mine;
      forall i | 0 <= i < |es| ensures Owned(es[i], at, i) in r.extents {
        assert mine[i] in mine;
      }
    case Branch(d, ps) =>
      ScanPointersGathers(fs, ps, d, at, 0, s);
  }

  lemma {:induction false} ScanPointersGathers(fs: Fs, ps: seq<Pointer>, d: nat, at: Loc, i: nat, s: Scan)
    requires s.Scan? && d > 0 && i <= |ps| && At(fs, at) == Tree(Branch(d, ps))
    requires ScanPointers(fs, ps, d, at, i, s).Scan?
    ensures Gathered(fs, at, s, ScanPointers(fs, ps, d, at, i, s))
    ensures forall j :: i <= j < |ps| ==> TreeRef(ps[j].child, at, j, d - 1) in ScanPointers(fs, ps, d, at, i, s).trees
    decreases d, 0, |ps| - i
  {
    hide OwnedFrom, RefFrom, Recorded, LeafOk, ExtentOk;
    if i < |ps| {
      var child := ps[i].child;
      var n := BlockAt(fs, child).node;
      var entered := Enter(s, ps, i, d, at);
      var mid := ScanNode(fs, n, d - 1, Blk(child), entered);
      var r := ScanPointers(fs, ps, d, at, i + 1, mid);
      ScanNodeGathers(fs, n, d - 1, Blk(child), entered);
      EnterGathers(fs, ps, d, at, i, s, mid);
      ScanPointersGathers(fs, ps, d, at, i + 1, mid);
      GatheredTrans(fs, at, at, s, mid, r);
    }
  }

  /** Entering one child and scanning below it. */
  lemma EnterGathers(fs: Fs, ps: seq<Pointer>, d: nat, at: Loc, i: nat, s: Scan, mid: Scan)
    requires s.Scan? && d > 0 && i < |ps| && At(fs, at) == Tree(Branch(d, ps))
    requires PointerOk(fs, ps, i) && ps[i].child !in s.visited
    requires BlockAt(fs, ps[i].child).Tree? && Depth(BlockAt(fs, ps[i].child).node) == d - 1
    requires Gathered(fs, Blk(ps[i].child), Enter(s, ps, i, d, at), mid)
    requires Recorded(fs, Blk(ps[i].child), mid)
    ensures Gathered(fs, at, s, mid)
    ensures TreeRef(ps[i].child, at, i, d - 1) in mid.trees
  {
    var child := ps[i].child;
    var entered := Enter(s, ps, i, d, at);
    var own := TreeRef(child, at, i, d - 1);
    assert own in entered.trees;
    forall b | b in mid.visited - s.visited
      ensures Recorded(fs, Blk(b), mid)
      ensures exists t :: t in mid.trees && t.block == b
    {
      if b == child {
        assert own in mid.trees && own.block == b;
      } else {
        assert b in mid.visited - entered.visited;
      }
    }
    forall t | t in mid.trees && t !in s.trees
      ensures RefFrom(fs, t) && Inside(t.parent, at, mid.visited - s.visited) && t.block in mid.visited - s.visited
    {
      if t in entered.trees {
        assert t == own;
      }
    }
  }

  // ---------- moving owned ranges ----------

  /** Which owned ranges have moved, by first block. */
  type Moves = map<nat, nat>

  function Moved(rho: Moves, p: nat): nat {
    if p in rho then rho[p] else p
  }

  function MovedLoc(rho: Moves, l: Loc): Loc {
    match l case Root(_) => l case Blk(b) => Blk(Moved(rho, b))
  }

  function MovedExtent(rho: Moves, e: Extent): Extent {
    e.(physical := Moved(rho, e.physical))
  }

  function MovedPointer(rho: Moves, p: Pointer): Pointer {
    p.(child := Moved(rho, p.child))
  }

  /** The same node with every reference redirected. */
  function MovedNode(rho: Moves, n: Node): (r: Node)
    ensures Depth(r) == Depth(n) && Size(r) == Size(n)
  {
    match n
    case Leaf(es) => Leaf(seq(|es|, i requires 0 <= i < |es| => MovedExtent(rho, es[i])))
    case Branch(d, ps) => Branch(d, seq(|ps|, i requires 0 <= i < |ps| => MovedPointer(rho, ps[i])))
  }

  function MovedOwned(rho: Moves, o: Owned): Owned {
    Owned(MovedExtent(rho, o.extent), MovedLoc(rho, o.container), o.index)
  }

  function MovedRef(rho: Moves, t: TreeRef): TreeRef {
    TreeRef(Moved(rho, t.block), MovedLoc(rho, t.parent), t.index, t.depth)
  }

  function MovedScan(rho: Moves, s: Scan): Scan {
    match s
    case Corrupt => Corrupt
    case Scan(es, ts, v) =>
      Scan(seq(|es|, i requires 0 <= i < |es| => MovedOwned(rho, es[i])),
           seq(|ts|, i requires 0 <= i < |ts| => MovedRef(rho, ts[i])),
           set b | b in v :: Moved(rho, b))
  }

  ghost predicate Injective(rho: Moves, blocks: set<nat>) {
    forall a, b :: a in blocks && b in blocks && Moved(rho, a) == Moved(rho, b) ==> a == b
  }

  /** `fs` holds the moved node for `l` of `fs0`, unless that block is damaged. */
  ghost predicate Holds(fs0: Fs, rho: Moves, fs: Fs, l: Loc) {
    && At(fs0, l).Tree?
    && (At(fs, MovedLoc(rho, l)) == Tree(MovedNode(rho, At(fs0, l).node)) || At(fs, MovedLoc(rho, l)) == Damaged)
  }

  ghost predicate Whole(fs: Fs, rho: Moves, blocks: set<nat>) {
    forall b :: b in blocks ==> BlockAt(fs, Moved(rho, b)) != Damaged
  }

  /** The moves keep every range of the scan inside the filesystem and tree blocks apart. */
  ghost predicate Fits(rho: Moves, blocksCount: nat, r: Scan) {
    && r.Scan? && Injective(rho, r.visited)
    && (forall b :: b in r.visited ==> 0 < Moved(rho, b) < blocksCount)
    && (forall o :: o in r.extents ==> ExtentOk(blocksCount, MovedExtent(rho, o.extent)))
  }

  lemma FitsEarlier(fs: Fs, at: Loc, rho: Moves, s: Scan, r: Scan)
    requires Gathered(fs, at, s, r) && Fits(rho, fs.blocksCount, r)
    ensures Fits(rho, fs.blocksCount, s)
  {
  }

  lemma MovedLeaf(rho: Moves, blocksCount: nat, es: seq<Extent>, at: Loc, s: Scan)
    requires s.Scan? && LeafOk(blocksCount, es)
    requires Fits(rho, blocksCount, Scan(s.extents + OwnedOf(es, at), s.trees, s.visited))
    ensures var es' := MovedNode(rho, Leaf(es)).extents;
      && LeafOk(blocksCount, es')
      && MovedScan(rho, Scan(s.extents + OwnedOf(es, at), s.trees, s.visited))
         == Scan(MovedScan(rho, s).extents + OwnedOf(es', MovedLoc(rho, at)), MovedScan(rho, s).trees, MovedScan(rho, s).visited)
  {
    hide Moved, MovedLoc;
    var es' := MovedNode(rho, Leaf(es)).extents;
    var mine := OwnedOf(es, at);
    var both := s.extents + mine;
    assert forall i :: 0 <= i < |both| ==>
      MovedOwned(rho, both[i]) == (MovedScan(rho, s).extents + OwnedOf(es', MovedLoc(rho, at)))[i];
    forall i | 0 <= i < |es'|
      ensures ExtentOk(blocksCount, es'[i]) && (i > 0 ==> es'[i - 1].logical + es'[i - 1].length <= es'[i].logical)
    {
      assert mine[i] in s.extents + mine;
    }
  }

  /** A damaged node stops the walk; otherwise the scan of the moved tree is the moved scan. */
  lemma {:induction false} ScanNodeMoved(fs0: Fs, fs: Fs, rho: Moves, node: Node, expected: nat, at: Loc, s: Scan)
    requires s.Scan? && fs.blocksCount == fs0.blocksCount && At(fs0, at) == Tree(node)
    requires ScanNode(fs0, node, expected, at, s).Scan?
    requires Fits(rho, fs.blocksCount, ScanNode(fs0, node, expected, at, s))
    requires forall b :: b in ScanNode(fs0, node, expected, at, s).visited - s.visited ==> Holds(fs0, rho, fs, Blk(b))
    ensures var r := ScanNode(fs0, node, expected, at, s);
      var r' := ScanNode(fs, MovedNode(rho, node), expected, MovedLoc(rho, at), MovedScan(rho, s));
      (r' == Corrupt || r' == MovedScan(rho, r)) && (Whole(fs, rho, r.visited - s.visited) ==> r' == MovedScan(rho, r))
    decreases expected, 1, 0
  {
    match node
    case Leaf(es) => MovedLeaf(rho, fs.blocksCount, es, at, s);
    case Branch(d, ps) => ScanPointersMoved(fs0, fs, rho, ps, d, at, 0, s);
  }

  lemma MovedEnter(rho: Moves, blocksCount: nat, r: Scan, s: Scan, ps: seq<Pointer>, i: nat, d: nat, at: Loc)
    requires s.Scan? && i < |ps| && d > 0
    requires Fits(rho, blocksCount, r) && s.visited + {ps[i].child} <= r.visited
    ensures 0 < Moved(rho, ps[i].child) < blocksCount
    ensures var ps' := MovedNode(rho, Branch(d, ps)).pointers;
      && MovedScan(rho, Enter(s, ps, i, d, at)) == Enter(MovedScan(rho, s), ps', i, d, MovedLoc(rho, at))
      && (ps'[i].child in MovedScan(rho, s).visited <==> ps[i].child in s.visited)
  {
    var c := ps[i].child;
    assert MovedScan(rho, Enter(s, ps, i, d, at)).visited == MovedScan(rho, s).visited + {Moved(rho, c)};
    if Moved(rho, c) in MovedScan(rho, s).visited {
      var b :| b in s.visited && Moved(rho, b) == Moved(rho, c);
      assert b == c;
    }
  }

  lemma GatheredVisits(fs: Fs, at: Loc, s: Scan, r: Scan)
    requires Gathered(fs, at, s, r)
    ensures s.Scan? && r.Scan? && s.visited <= r.visited
  {
  }

  lemma HeldChild(fs0: Fs, fs: Fs, rho: Moves, child: nat)
    requires Holds(fs0, rho, fs, Blk(child))
    ensures BlockAt(fs0, child).Tree?
    ensures BlockAt(fs, Moved(rho, child)) == Damaged || BlockAt(fs, Moved(rho, child)) == Tree(MovedNode(rho, BlockAt(fs0, child).node))
  {
  }

  lemma WholeChild(fs: Fs, rho: Moves, blocks: set<nat>, child: nat)
    requires child in blocks
    ensures Whole(fs, rho, blocks) ==> BlockAt(fs, Moved(rho, child)) != Damaged
  {
  }

  lemma WholePart(fs: Fs, rho: Moves, part: set<nat>, blocks: set<nat>)
    requires part <= blocks
    ensures Whole(fs, rho, blocks) ==> Whole(fs, rho, part)
  {
  }

  lemma {:induction false} ScanPointersMoved(fs0: Fs, fs: Fs, rho: Moves, ps: seq<Pointer>, d: nat, at: Loc, i: nat, s: Scan)
    requires s.Scan? && d > 0 && i <= |ps| && fs.blocksCount == fs0.blocksCount && At(fs0, at) == Tree(Branch(d, ps))
    requires ScanPointers(fs0, ps, d, at, i, s).Scan?
    requires Fits(rho, fs.blocksCount, ScanPointers(fs0, ps, d, at, i, s))
    requires forall b :: b in ScanPointers(fs0, ps, d, at, i, s).visited - s.visited ==> Holds(fs0, rho, fs, Blk(b))
    ensures var r := ScanPointers(fs0, ps, d, at, i, s);
      var r' := ScanPointers(fs, MovedNode(rho, Branch(d, ps)).pointers, d, MovedLoc(rho, at), i, MovedScan(rho, s));
      (r' == Corrupt || r' == MovedScan(rho, r)) && (Whole(fs, rho, r.visited - s.visited) ==> r' == MovedScan(rho, r))
    decreases d, 0, |ps| - i
  {
    if i < |ps| {
      hide OwnedFrom, RefFrom, Recorded, Inside, LeafOk, ExtentOk, MovedScan, Moved, ScanNode, ScanPointers, Fits, PointerOk, Injective, Holds, Whole, Gathered;
      var ps' := MovedNode(rho, Branch(d, ps)).pointers;
      PointersStep(fs0, ps, d, at, i, s);
      PointersStep(fs, ps', d, MovedLoc(rho, at), i, MovedScan(rho, s));
      var child := ps[i].child;
      var n := BlockAt(fs0, child).node;
      var entered := Enter(s, ps, i, d, at);
      var mid := ScanNode(fs0, n, d - 1, Blk(child), entered);
      var r := ScanPointers(fs0, ps, d, at, i + 1, mid);
      ScanNodeGathers(fs0, n, d - 1, Blk(child), entered);
      ScanPointersGathers(fs0, ps, d, at, i + 1, mid);
      GatheredVisits(fs0, Blk(child), entered, mid);
      GatheredVisits(fs0, at, mid, r);
      FitsEarlier(fs0, at, rho, mid, r);
      assert child in r.visited - s.visited;
      HeldChild(fs0, fs, rho, child);
      WholeChild(fs, rho, r.visited - s.visited, child);
      WholePart(fs, rho, mid.visited - entered.visited, r.visited - s.visited);
      WholePart(fs, rho, r.visited - mid.visited, r.visited - s.visited);
      MovedEnter(rho, fs.blocksCount, r, s, ps, i, d, at);
      MovedPointerOk(fs0, fs, rho, ps, d, i);
      assert Holds(fs0, rho, fs, Blk(child));
      ScanNodeMoved(fs0, fs, rho, n, d - 1, Blk(child), entered);
      ScanPointersMoved(fs0, fs, rho, ps, d, at, i + 1, mid);
    }
  }

  lemma MovedPointerOk(fs0: Fs, fs: Fs, rho: Moves, ps: seq<Pointer>, d: nat, i: nat)
    requires i < |ps| && PointerOk(fs0, ps, i) && 0 < Moved(rho, ps[i].child) < fs.blocksCount
    ensures PointerOk(fs, MovedNode(rho, Branch(d, ps)).pointers, i)
  {
  }

  /** The scan of an inode after the moves in `rho`. */
  lemma ScanInodeMoved(fs0: Fs, fs: Fs, rho: Moves, ino: nat)
    requires ScanInode(fs0, ino).Scan? && fs.blocksCount == fs0.blocksCount
    requires Fits(rho, fs.blocksCount, ScanInode(fs0, ino))
    requires Holds(fs0, rho, fs, Root(ino))
    requires forall b :: b in ScanInode(fs0, ino).visited ==> Holds(fs0, rho, fs, Blk(b))
    ensures ScanInode(fs, ino) == Corrupt || ScanInode(fs, ino) == MovedScan(rho, ScanInode(fs0, ino))
    ensures At(fs, Root(ino)) != Damaged && Whole(fs, rho, ScanInode(fs0, ino).visited) ==>
      ScanInode(fs, ino) == MovedScan(rho, ScanInode(fs0, ino))
  {
    var n := At(fs0, Root(ino)).node;
    var r := ScanInode(fs0, ino);
    assert r.visited - {} == r.visited;
    ScanNodeMoved(fs0, fs, rho, n, Depth(n), Root(ino), EMPTY);
    assert MovedScan(rho, EMPTY) == EMPTY;
  }

  // ---------- reading a file block ----------

  predicate Covers(e: Extent, logical: nat) {
    e.logical <= logical < e.logical + e.length
  }

  /** Index of the covering extent with the least logical start, or |es| when none covers. */
  function Pick(es: seq<Owned>, logical: nat): (r: nat)
    ensures r <= |es| && (r < |es| ==> Covers(es[r].extent, logical))
    ensures r == |es| <==> forall i :: 0 <= i < |es| ==> !Covers(es[i].extent, logical)
    ensures forall i :: 0 <= i < |es| && Covers(es[i].extent, logical) ==> es[r].extent.logical <= es[i].extent.logical
  {
    if es == [] then 0
    else
      var n := |es| - 1;
      var best := Pick(es[..n], logical);
      if Covers(es[n].extent, logical) && (best == n || es[n].extent.logical < es[best].extent.logical) then n
      else if best == n then |es| else best
  }

  lemma PickMore(es: seq<Owned>, i: nat, logical: nat)
    requires i < |es|
    ensures var best := Pick(es[..i], logical);
      Pick(es[..i + 1], logical) ==
        if Covers(es[i].extent, logical) && (best == i || es[i].extent.logical < es[best].extent.logical) then i
        else if best == i then i + 1 else best
  {
    assert es[..i + 1][..i] == es[..i];
  }

  lemma {:induction false} PickMoved(rho: Moves, es: seq<Owned>, es': seq<Owned>, logical: nat)
    requires |es| == |es'| && forall i :: 0 <= i < |es| ==> es'[i] == MovedOwned(rho, es[i])
    ensures Pick(es', logical) == Pick(es, logical)
    decreases |es|
  {
    if es != [] {
      PickMoved(rho, es[..|es| - 1], es'[..|es| - 1], logical);
    }
  }

  lemma {:induction false} PickFinds(es: seq<Owned>, logical: nat, i: nat)
    requires i < |es| && Covers(es[i].extent, logical)
    requires forall j :: 0 <= j < |es| && j != i ==> !Covers(es[j].extent, logical)
    ensures Pick(es, logical) == i
    decreases |es|
  {
    var n := |es| - 1;
    if i < n {
      PickFinds(es[..n], logical, i);
    } else {
      assert forall j :: 0 <= j < n ==> es[..n][j] == es[j];
    }
  }

  /** What a reader of file block `logical` gets. */
  datatype Reading = Bytes(content: Block) | Zeroes | Hole | Unreadable

  function ReadScan(fs: Fs, s: Scan, logical: nat): Reading {
    match s
    case Corrupt => Unreadable
    case Scan(es, _, _) =>
      var i := Pick(es, logical);
      if i == |es| then Hole
      else if es[i].extent.unwritten then Zeroes
      else Bytes(BlockAt(fs, es[i].extent.physical + (logical - es[i].extent.logical)))
  }

  function Read(fs: Fs, ino: nat, logical: nat): Reading {
    ReadScan(fs, ScanInode(fs, ino), logical)
  }

  /** Written extents hold, at their present place, the bytes they held in `fs0`. */
  ghost predicate Kept(fs0: Fs, rho: Moves, fs: Fs, e: Extent) {
    !e.unwritten ==>
      forall q :: e.physical <= q < e.physical + e.length ==>
        BlockAt(fs, Moved(rho, e.physical) + (q - e.physical)) == BlockAt(fs0, q)
  }

  /** Moving owned ranges preserves the meaning of every file block. */
  lemma ReadPreserved(fs0: Fs, fs: Fs, rho: Moves, ino: nat, logical: nat)
    requires ScanInode(fs0, ino).Scan? && fs.blocksCount == fs0.blocksCount
    requires Fits(rho, fs.blocksCount, ScanInode(fs0, ino))
    requires Holds(fs0, rho, fs, Root(ino))
    requires forall b :: b in ScanInode(fs0, ino).visited ==> Holds(fs0, rho, fs, Blk(b))
    requires forall o :: o in ScanInode(fs0, ino).extents ==> Kept(fs0, rho, fs, o.extent)
    ensures Read(fs, ino, logical) == Unreadable || Read(fs, ino, logical) == Read(fs0, ino, logical)
    ensures At(fs, Root(ino)) != Damaged && Whole(fs, rho, ScanInode(fs0, ino).visited) ==>
      Read(fs, ino, logical) == Read(fs0, ino, logical)
  {
    hide ScanInode, Holds, Fits, Whole, ReadScan, Kept;
    ScanInodeMoved(fs0, fs, rho, ino);
    ReadMovedScan(fs0, fs, rho, ScanInode(fs0, ino), logical);
    CorruptUnreadable(fs, logical);
  }

  lemma CorruptUnreadable(fs: Fs, logical: nat)
    ensures ReadScan(fs, Corrupt, logical) == Unreadable
  {
  }

  lemma ReadMovedScan(fs0: Fs, fs: Fs, rho: Moves, s: Scan, logical: nat)
    requires s.Scan? && forall o :: o in s.extents ==> Kept(fs0, rho, fs, o.extent)
    ensures ReadScan(fs, MovedScan(rho, s), logical) == ReadScan(fs0, s, logical)
  {
    hide Pick, Moved;
    var es' := MovedScan(rho, s).extents;
    PickMoved(rho, s.extents, es', logical);
    var i := Pick(s.extents, logical);
    if i < |s.extents| {
      var e := s.extents[i].extent;
      assert s.extents[i] in s.extents;
      assert Kept(fs0, rho, fs, e);
      assert es'[i] == MovedOwned(rho, s.extents[i]);
      assert !e.unwritten ==> BlockAt(fs0, e.physical + (logical - e.logical)) == BlockAt(fs, Moved(rho, e.physical) + (logical - e.logical));
    }
  }

  /** scan_inode_extent_tree over the class-based walk. */
  method ScanTree(fs: Fs, ino: nat) returns (s: Scan)
    ensures s == ScanInode(fs, ino)
  {
    hide ScanNode;
    var root := At(fs, Root(ino));
    if !root.Tree? { return Corrupt; }
    var c := new ParseContext(fs);
    var ok := c.ParseNode(root.node, Depth(root.node), Root(ino));
    s := if ok then Scan(c.extents, c.trees, c.visited) else Corrupt;
  }

  /** The first covering extent in logical order. */
  method PickExtent(es: seq<Owned>, logical: nat) returns (best: nat)
    ensures best == Pick(es, logical)
    ensures best == |es| <==> forall i :: 0 <= i < |es| ==> !Covers(es[i].extent, logical)
    ensures best < |es| ==> Covers(es[best].extent, logical)
    ensures forall i :: 0 <= i < |es| && Covers(es[i].extent, logical) ==> es[best].extent.logical <= es[i].extent.logical
  {
    hide Pick;
    best := 0;
    assert es[..0] == [];
    for i := 0 to |es|
      invariant best == Pick(es[..i], logical)
    {
      PickMore(es, i, logical);
      if Covers(es[i].extent, logical) && (best == i || es[i].extent.logical < es[best].extent.logical) {
        best := i;
      } else if best == i {
        best := i + 1;
      }
    }
    assert es[..|es|] == es;
  }
}
