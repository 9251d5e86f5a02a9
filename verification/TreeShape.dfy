/**
 When the walk of src/ext4/extents.cpp accepts a tree, stated over the nodes that paths of entry
 indices lead to and without the walk itself; and what a reader then gets.
 */
module TreeShape {
  import opened ExtentTree

  // ---------- paths ----------

  /** Following entry `p[0]` of the pointers, then `p[1]` of the node it names, and so on, ends at block `b`. */
  predicate LeadsVia(fs: Fs, ps: seq<Pointer>, p: seq<nat>, b: nat)
    decreases |p|
  {
    && p != [] && p[0] < |ps|
    && if |p| == 1 then ps[p[0]].child == b
       else
         var child := BlockAt(fs, ps[p[0]].child);
         child.Tree? && child.node.Branch? && LeadsVia(fs, child.node.pointers, p[1..], b)
  }

  predicate Leads(fs: Fs, node: Node, p: seq<nat>, b: nat) {
    node.Branch? && LeadsVia(fs, node.pointers, p, b)
  }

  ghost predicate LedTo(fs: Fs, node: Node, b: nat) {
    exists p :: Leads(fs, node, p, b)
  }

  // ---------- well-formed trees ----------

  /** Extents lie inside the filesystem, and each ends before or where any later one begins. */
  predicate SoundLeaf(count: nat, es: seq<Extent>) {
    && (forall i :: 0 <= i < |es| ==> 0 < es[i].length && 0 < es[i].physical && es[i].physical + es[i].length <= count)
    && (forall i, j :: 0 <= i < j < |es| ==> es[i].logical + es[i].length <= es[j].logical)
  }

  /** Keys ascend strictly, and children lie inside the filesystem. */
  predicate SoundIndex(count: nat, ps: seq<Pointer>) {
    && (forall i :: 0 <= i < |ps| ==> 0 < ps[i].child < count)
    && (forall i, j :: 0 <= i < j < |ps| ==> ps[i].logical < ps[j].logical)
  }

  predicate SoundNode(count: nat, depth: nat, node: Node) {
    match node
    case Leaf(es) => depth == 0 && SoundLeaf(count, es)
    case Branch(d, ps) => depth == d > 0 && SoundIndex(count, ps)
  }

  /** Block `b`, `steps` below a node of depth `d`, holds a sound node of the depth that leaves. */
  predicate FitsAt(fs: Fs, b: nat, d: nat, steps: nat) {
    steps <= d && BlockAt(fs, b).Tree? && SoundNode(fs.blocksCount, d - steps, BlockAt(fs, b).node)
  }

  /** Every node below is sound, and depths step down by one. */
  ghost predicate FitsBelow(fs: Fs, node: Node, d: nat) {
    forall p, b :: Leads(fs, node, p, b) ==> FitsAt(fs, b, d, |p|)
  }

  /** No block is reached twice. */
  ghost predicate Distinct(fs: Fs, node: Node) {
    forall p, q, b :: Leads(fs, node, p, b) && Leads(fs, node, q, b) ==> p == q
  }

  ghost predicate Fresh(fs: Fs, node: Node, seen: set<nat>) {
    forall p, b :: Leads(fs, node, p, b) ==> b !in seen
  }

  ghost predicate WellFormed(fs: Fs, ino: nat) {
    && At(fs, Root(ino)).Tree?
    && var root := At(fs, Root(ino)).node;
       Depth(root) <= 5 && SoundNode(fs.blocksCount, Depth(root), root) && FitsBelow(fs, root, Depth(root)) && Distinct(fs, root)
  }

  // ---------- the pointers from the i-th on ----------

  ghost predicate From(fs: Fs, ps: seq<Pointer>, i: nat, p: seq<nat>, b: nat) {
    LeadsVia(fs, ps, p, b) && p[0] >= i
  }

  ghost predicate SomeFrom(fs: Fs, ps: seq<Pointer>, i: nat, b: nat) {
    exists p :: From(fs, ps, i, p, b)
  }

  ghost predicate KeysFrom(fs: Fs, ps: seq<Pointer>, i: nat) {
    forall j :: i <= j < |ps| ==> PointerOk(fs, ps, j)
  }

  ghost predicate FitsFrom(fs: Fs, ps: seq<Pointer>, i: nat, d: nat) {
    forall p, b :: From(fs, ps, i, p, b) ==> FitsAt(fs, b, d, |p|)
  }

  ghost predicate DistinctFrom(fs: Fs, ps: seq<Pointer>, i: nat) {
    forall p, q, b :: From(fs, ps, i, p, b) && From(fs, ps, i, q, b) ==> p == q
  }

  ghost predicate FreshFrom(fs: Fs, ps: seq<Pointer>, i: nat, seen: set<nat>) {
    forall p, b :: From(fs, ps, i, p, b) ==> b !in seen
  }

  /** The paths through pointer `i`: the pointer itself, and those of the node it names. */
  lemma ThroughFirst(fs: Fs, ps: seq<Pointer>, i: nat, p: seq<nat>, b: nat)
    requires i < |ps| && BlockAt(fs, ps[i].child).Tree?
    ensures LeadsVia(fs, ps, [i], b) <==> b == ps[i].child
    ensures LeadsVia(fs, ps, [i] + p, b) <==> if p == [] then b == ps[i].child else Leads(fs, BlockAt(fs, ps[i].child).node, p, b)
  {
    assert ([i] + p)[1..] == p;
    if p == [] { assert [i] + p == [i]; }
  }

  lemma Split(fs: Fs, ps: seq<Pointer>, i: nat, p: seq<nat>, b: nat)
    requires i < |ps| && BlockAt(fs, ps[i].child).Tree?
    ensures From(fs, ps, i, p, b) <==>
      || (p == [i] && b == ps[i].child)
      || (|p| > 1 && p[0] == i && Leads(fs, BlockAt(fs, ps[i].child).node, p[1..], b))
      || From(fs, ps, i + 1, p, b)
  {
    if |p| == 1 { assert p == [p[0]]; }
  }

  lemma Later(fs: Fs, ps: seq<Pointer>, i: nat)
    ensures var k := i + 1; forall p, b :: From(fs, ps, k, p, b) ==> From(fs, ps, i, p, b) && p[0] != i
  {
  }

  lemma FitsStep(fs: Fs, ps: seq<Pointer>, i: nat, d: nat)
    requires i < |ps| && BlockAt(fs, ps[i].child).Tree? && d > 0
    ensures FitsFrom(fs, ps, i, d) <==>
      && FitsAt(fs, ps[i].child, d, 1) && FitsBelow(fs, BlockAt(fs, ps[i].child).node, d - 1) && FitsFrom(fs, ps, i + 1, d)
  {
    hide LeadsVia, SoundNode;
    var c := ps[i].child;
    var n := BlockAt(fs, c).node;
    if FitsFrom(fs, ps, i, d) {
      ThroughFirst(fs, ps, i, [], c);
      Split(fs, ps, i, [i], c);
      assert From(fs, ps, i, [i], c);
      forall p, b | Leads(fs, n, p, b) ensures FitsAt(fs, b, d - 1, |p|) {
        LeadsSome(fs, n, p, b);
        ThroughFirst(fs, ps, i, p, b);
        assert From(fs, ps, i, [i] + p, b);
      }
      Later(fs, ps, i);
    } else {
      var p, b :| From(fs, ps, i, p, b) && !FitsAt(fs, b, d, |p|);
      Split(fs, ps, i, p, b);
      if |p| > 1 && p[0] == i { assert Leads(fs, n, p[1..], b) && !FitsAt(fs, b, d - 1, |p[1..]|); }
    }
  }

  lemma LeadsSome(fs: Fs, n: Node, p: seq<nat>, b: nat)
    requires Leads(fs, n, p, b)
    ensures p != []
  {
  }

  lemma FreshStep(fs: Fs, ps: seq<Pointer>, i: nat, seen: set<nat>)
    requires i < |ps| && BlockAt(fs, ps[i].child).Tree?
    ensures FreshFrom(fs, ps, i, seen) <==>
      ps[i].child !in seen && Fresh(fs, BlockAt(fs, ps[i].child).node, seen) && FreshFrom(fs, ps, i + 1, seen)
  {
    hide LeadsVia;
    var c := ps[i].child;
    var n := BlockAt(fs, c).node;
    if FreshFrom(fs, ps, i, seen) {
      Split(fs, ps, i, [i], c);
      assert From(fs, ps, i, [i], c);
      forall p, b | Leads(fs, n, p, b) ensures b !in seen {
        LeadsSome(fs, n, p, b);
        ThroughFirst(fs, ps, i, p, b);
        assert From(fs, ps, i, [i] + p, b);
      }
      Later(fs, ps, i);
    } else {
      var p, b :| From(fs, ps, i, p, b) && b in seen;
      Split(fs, ps, i, p, b);
    }
  }

  lemma DistinctHead(fs: Fs, ps: seq<Pointer>, i: nat)
    requires i < |ps| && BlockAt(fs, ps[i].child).Tree? && DistinctFrom(fs, ps, i)
    ensures Distinct(fs, BlockAt(fs, ps[i].child).node) && Fresh(fs, BlockAt(fs, ps[i].child).node, {ps[i].child})
  {
    hide LeadsVia;
    var c := ps[i].child;
    var n := BlockAt(fs, c).node;
    ThroughFirst(fs, ps, i, [], c);
    assert From(fs, ps, i, [i], c);
    forall p, b | Leads(fs, n, p, b) ensures From(fs, ps, i, [i] + p, b) && b != c {
      LeadsSome(fs, n, p, b);
      ThroughFirst(fs, ps, i, p, b);
      assert |[i] + p| > |[i]|;
    }
    forall p, q, b | Leads(fs, n, p, b) && Leads(fs, n, q, b) ensures p == q {
      assert From(fs, ps, i, [i] + p, b) && From(fs, ps, i, [i] + q, b);
      assert ([i] + p)[1..] == p && ([i] + q)[1..] == q;
    }
  }

  /** `seen` grew by the block of pointer `i` and the blocks below it. */
  ghost predicate Grown(fs: Fs, ps: seq<Pointer>, i: nat, before: set<nat>, after: set<nat>)
    requires i < |ps| && BlockAt(fs, ps[i].child).Tree?
  {
    forall b :: b in after <==> b in before || b == ps[i].child || LedTo(fs, BlockAt(fs, ps[i].child).node, b)
  }

  lemma DistinctTail(fs: Fs, ps: seq<Pointer>, i: nat, before: set<nat>, after: set<nat>)
    requires i < |ps| && BlockAt(fs, ps[i].child).Tree? && DistinctFrom(fs, ps, i) && FreshFrom(fs, ps, i, before) && Grown(fs, ps, i, before, after)
    ensures DistinctFrom(fs, ps, i + 1) && FreshFrom(fs, ps, i + 1, after)
  {
    hide LeadsVia, From;
    Later(fs, ps, i);
    var k := i + 1;
    forall p, b | From(fs, ps, k, p, b) ensures b !in after {
      NotBefore(fs, ps, i, before, after, p, b);
    }
  }

  lemma NotBefore(fs: Fs, ps: seq<Pointer>, i: nat, before: set<nat>, after: set<nat>, p: seq<nat>, b: nat)
    requires i < |ps| && BlockAt(fs, ps[i].child).Tree? && DistinctFrom(fs, ps, i) && FreshFrom(fs, ps, i, before) && Grown(fs, ps, i, before, after)
    requires From(fs, ps, i, p, b) && p[0] != i
    ensures b !in after
  {
    hide LeadsVia;
    var c := ps[i].child;
    var n := BlockAt(fs, c).node;
    ThroughFirst(fs, ps, i, [], c);
    assert From(fs, ps, i, [i], c) && [i][0] == i;
    forall q | Leads(fs, n, q, b) ensures From(fs, ps, i, [i] + q, b) && ([i] + q)[0] == i {
      LeadsSome(fs, n, q, b);
      ThroughFirst(fs, ps, i, q, b);
    }
  }

  /** Two paths through pointer `i` or beyond it to one block are one path. */
  lemma DistinctBack(fs: Fs, ps: seq<Pointer>, i: nat, before: set<nat>, after: set<nat>, p: seq<nat>, q: seq<nat>, b: nat)
    requires i < |ps| && BlockAt(fs, ps[i].child).Tree? && Grown(fs, ps, i, before, after)
    requires Distinct(fs, BlockAt(fs, ps[i].child).node) && Fresh(fs, BlockAt(fs, ps[i].child).node, {ps[i].child})
    requires DistinctFrom(fs, ps, i + 1) && FreshFrom(fs, ps, i + 1, after)
    requires From(fs, ps, i, p, b) && From(fs, ps, i, q, b)
    ensures p == q
  {
    Split(fs, ps, i, p, b);
    Split(fs, ps, i, q, b);
    hide LeadsVia;
    if |p| > 1 && p[0] == i && |q| > 1 && q[0] == i {
      assert p == [i] + p[1..] && q == [i] + q[1..];
    }
  }

  // ---------- the walk ----------

  /** What makes the scan of a node succeed, given the blocks seen so far. */
  ghost predicate NodeAccepted(fs: Fs, node: Node, d: nat, seen: set<nat>) {
    d <= 5 && SoundNode(fs.blocksCount, d, node) && FitsBelow(fs, node, d) && Distinct(fs, node) && Fresh(fs, node, seen)
  }

  ghost predicate PointersAccepted(fs: Fs, ps: seq<Pointer>, d: nat, i: nat, seen: set<nat>) {
    KeysFrom(fs, ps, i) && FitsFrom(fs, ps, i, d) && DistinctFrom(fs, ps, i) && FreshFrom(fs, ps, i, seen)
  }

  lemma LeafIsSound(count: nat, es: seq<Extent>)
    ensures LeafOk(count, es) <==> SoundLeaf(count, es)
  {
    if LeafOk(count, es) {
      forall i, j | 0 <= i < j < |es| ensures es[i].logical + es[i].length <= es[j].logical { LeafAscends(count, es, i, j); }
    }
  }

  lemma {:induction false} LeafAscends(count: nat, es: seq<Extent>, i: nat, j: nat)
    requires LeafOk(count, es) && i < j < |es|
    ensures es[i].logical + es[i].length <= es[j].logical
    decreases j
  {
    if i < j - 1 { LeafAscends(count, es, i, j - 1); }
  }

  lemma IndexIsSound(fs: Fs, ps: seq<Pointer>)
    ensures KeysFrom(fs, ps, 0) <==> SoundIndex(fs.blocksCount, ps)
  {
    if KeysFrom(fs, ps, 0) {
      forall i | 0 <= i < |ps| ensures 0 < ps[i].child < fs.blocksCount { assert PointerOk(fs, ps, i); }
      forall i, j | 0 <= i < j < |ps| ensures ps[i].logical < ps[j].logical { KeysAscend(fs, ps, i, j); }
    }
  }

  lemma {:induction false} KeysAscend(fs: Fs, ps: seq<Pointer>, i: nat, j: nat)
    requires KeysFrom(fs, ps, 0) && i < j < |ps|
    ensures ps[i].logical < ps[j].logical
    decreases j
  {
    assert PointerOk(fs, ps, j);
    if i < j - 1 { KeysAscend(fs, ps, i, j - 1); }
  }

  lemma {:induction false} NodeScans(fs: Fs, node: Node, d: nat, at: Loc, s: Scan)
    requires s.Scan?
    ensures ScanNode(fs, node, d, at, s).Scan? <==> NodeAccepted(fs, node, d, s.visited)
    ensures ScanNode(fs, node, d, at, s).Scan? ==>
      forall b :: b in ScanNode(fs, node, d, at, s).visited <==> b in s.visited || LedTo(fs, node, b)
    decreases d, 1, 0
  {
    hide LeadsVia, LeafOk, SoundLeaf, SoundIndex, KeysFrom, FitsAt;
    if Depth(node) == d && d <= 5 {
      match node
      case Leaf(es) => LeafIsSound(fs.blocksCount, es);
      case Branch(_, ps) =>
        if d > 0 {
          IndexIsSound(fs, ps);
          PointersScan(fs, ps, d, at, 0, s);
          AllFrom(fs, node, d, s.visited);
        }
    }
  }

  lemma AllFrom(fs: Fs, node: Node, d: nat, seen: set<nat>)
    requires node.Branch?
    ensures forall p, b :: Leads(fs, node, p, b) <==> From(fs, node.pointers, 0, p, b)
    ensures FitsBelow(fs, node, d) <==> FitsFrom(fs, node.pointers, 0, d)
    ensures Distinct(fs, node) <==> DistinctFrom(fs, node.pointers, 0)
    ensures Fresh(fs, node, seen) <==> FreshFrom(fs, node.pointers, 0, seen)
  {
    hide FitsAt;
    forall p, b ensures Leads(fs, node, p, b) <==> From(fs, node.pointers, 0, p, b) { }
    hide Leads, From;
  }

  lemma FirstAccepted(fs: Fs, ps: seq<Pointer>, d: nat, i: nat, seen: set<nat>)
    requires i < |ps| && 0 < d <= 6 && PointersAccepted(fs, ps, d, i, seen)
    ensures PointerOk(fs, ps, i) && ps[i].child !in seen && BlockAt(fs, ps[i].child).Tree?
    ensures NodeAccepted(fs, BlockAt(fs, ps[i].child).node, d - 1, seen + {ps[i].child})
  {
    hide SoundNode;
    var c := ps[i].child;
    assert LeadsVia(fs, ps, [i], c);
    assert From(fs, ps, i, [i], c);
    assert FitsAt(fs, c, d, 1);
    FitsStep(fs, ps, i, d);
    FreshStep(fs, ps, i, seen);
    DistinctHead(fs, ps, i);
  }

  lemma RestAccepted(fs: Fs, ps: seq<Pointer>, d: nat, i: nat, before: set<nat>, after: set<nat>)
    requires i < |ps| && 0 < d <= 6 && BlockAt(fs, ps[i].child).Tree? && Grown(fs, ps, i, before, after)
    requires PointerOk(fs, ps, i) && ps[i].child !in before
    requires NodeAccepted(fs, BlockAt(fs, ps[i].child).node, d - 1, before + {ps[i].child})
    ensures PointersAccepted(fs, ps, d, i, before) <==> PointersAccepted(fs, ps, d, i + 1, after)
  {
    hide LeadsVia, SoundNode, PointerOk, Leads, From;
    FitsStep(fs, ps, i, d);
    FreshStep(fs, ps, i, before);
    if PointersAccepted(fs, ps, d, i, before) {
      DistinctTail(fs, ps, i, before, after);
    }
    if PointersAccepted(fs, ps, d, i + 1, after) {
      forall p, q, b | From(fs, ps, i, p, b) && From(fs, ps, i, q, b) ensures p == q {
        DistinctBack(fs, ps, i, before, after, p, q, b);
      }
      assert forall b :: b in before ==> b in after;
    }
  }

  lemma BlocksJoin(fs: Fs, ps: seq<Pointer>, i: nat, before: set<nat>, after: set<nat>, b: nat)
    requires i < |ps| && BlockAt(fs, ps[i].child).Tree? && Grown(fs, ps, i, before, after)
    ensures (b in after || SomeFrom(fs, ps, i + 1, b)) <==> (b in before || SomeFrom(fs, ps, i, b))
  {
    hide LeadsVia;
    var c := ps[i].child;
    var n := BlockAt(fs, c).node;
    if p :| From(fs, ps, i, p, b) { Split(fs, ps, i, p, b); }
    Later(fs, ps, i);
    if b == c { ThroughFirst(fs, ps, i, [], c); assert From(fs, ps, i, [i], c); }
    if p :| Leads(fs, n, p, b) {
      LeadsSome(fs, n, p, b);
      ThroughFirst(fs, ps, i, p, b);
      assert From(fs, ps, i, [i] + p, b);
    }
  }

  lemma NoneFrom(fs: Fs, ps: seq<Pointer>, d: nat, seen: set<nat>)
    ensures PointersAccepted(fs, ps, d, |ps|, seen) && forall p, b :: !From(fs, ps, |ps|, p, b)
  {
  }

  lemma {:induction false} PointersScan(fs: Fs, ps: seq<Pointer>, d: nat, at: Loc, i: nat, s: Scan)
    requires s.Scan? && 0 < d <= 6 && i <= |ps|
    ensures ScanPointers(fs, ps, d, at, i, s).Scan? <==> PointersAccepted(fs, ps, d, i, s.visited)
    ensures ScanPointers(fs, ps, d, at, i, s).Scan? ==>
      forall b :: b in ScanPointers(fs, ps, d, at, i, s).visited <==> b in s.visited || SomeFrom(fs, ps, i, b)
    decreases d, 0, |ps| - i
  {
    hide ScanNode, SoundNode, PointersAccepted, NodeAccepted, From, Leads;
    if i == |ps| {
      NoneFrom(fs, ps, d, s.visited);
    } else {
      PointersStep(fs, ps, d, at, i, s);
      if PointersAccepted(fs, ps, d, i, s.visited) { FirstAccepted(fs, ps, d, i, s.visited); }
      var c := ps[i].child;
      if PointerOk(fs, ps, i) && c !in s.visited && BlockAt(fs, c).Tree? {
        PointersNext(fs, ps, d, at, i, s);
      }
    }
  }

  lemma {:induction false} PointersNext(fs: Fs, ps: seq<Pointer>, d: nat, at: Loc, i: nat, s: Scan)
    requires s.Scan? && 0 < d <= 6 && i < |ps| && PointerOk(fs, ps, i) && ps[i].child !in s.visited && BlockAt(fs, ps[i].child).Tree?
    ensures ScanPointers(fs, ps, d, at, i, s).Scan? <==> PointersAccepted(fs, ps, d, i, s.visited)
    ensures ScanPointers(fs, ps, d, at, i, s).Scan? ==>
      forall b :: b in ScanPointers(fs, ps, d, at, i, s).visited <==> b in s.visited || SomeFrom(fs, ps, i, b)
    decreases d, 0, |ps| - i, 0
  {
    hide ScanNode, ScanPointers, SoundNode, PointersAccepted, NodeAccepted, From, Leads, PointerOk;
    var c := ps[i].child;
    var n := BlockAt(fs, c).node;
    var entered := Enter(s, ps, i, d, at);
    PointersStep(fs, ps, d, at, i, s);
    NodeScans(fs, n, d - 1, Blk(c), entered);
    var mid := ScanNode(fs, n, d - 1, Blk(c), entered);
    if PointersAccepted(fs, ps, d, i, s.visited) { FirstAccepted(fs, ps, d, i, s.visited); }
    if mid.Scan? {
      assert Grown(fs, ps, i, s.visited, mid.visited);
      PointersScan(fs, ps, d, at, i + 1, mid);
      RestAccepted(fs, ps, d, i, s.visited, mid.visited);
      forall b: nat ensures (b in mid.visited || SomeFrom(fs, ps, i + 1, b)) <==> (b in s.visited || SomeFrom(fs, ps, i, b)) {
        BlocksJoin(fs, ps, i, s.visited, mid.visited, b);
      }
    }
  }

  /** The walk accepts exactly the well-formed trees, and visits exactly the blocks paths lead to. */
  lemma ScansIffWellFormed(fs: Fs, ino: nat)
    ensures ScanInode(fs, ino).Scan? <==> WellFormed(fs, ino)
    ensures WellFormed(fs, ino) ==>
      forall b :: b in ScanInode(fs, ino).visited <==> LedTo(fs, At(fs, Root(ino)).node, b)
  {
    hide ScanNode, SoundNode, Leads, FitsBelow, Distinct;
    if At(fs, Root(ino)).Tree? {
      var root := At(fs, Root(ino)).node;
      NodeScans(fs, root, Depth(root), Root(ino), EMPTY);
    }
  }

  // ---------- reading ----------

  predicate HoldsExtent(b: Block, e: Extent) {
    b.Tree? && b.node.Leaf? && e in b.node.extents
  }

  /** The extent is an entry of some leaf of the inode's tree. */
  ghost predicate InTree(fs: Fs, ino: nat, e: Extent) {
    || HoldsExtent(At(fs, Root(ino)), e)
    || (At(fs, Root(ino)).Tree? && exists b :: LedTo(fs, At(fs, Root(ino)).node, b) && HoldsExtent(BlockAt(fs, b), e))
  }

  /** The scan collects exactly the extents of the leaves. */
  lemma ScannedExtents(fs: Fs, ino: nat, e: Extent)
    requires WellFormed(fs, ino)
    ensures ScanInode(fs, ino).Scan?
    ensures InTree(fs, ino, e) <==> exists o :: o in ScanInode(fs, ino).extents && o.extent == e
  {
    hide ScanNode, WellFormed, LedTo;
    ScansIffWellFormed(fs, ino);
    var root := At(fs, Root(ino)).node;
    var r := ScanInode(fs, ino);
    ScanNodeGathers(fs, root, Depth(root), Root(ino), EMPTY);
    assert r.visited - {} == r.visited;
    if o :| o in r.extents && o.extent == e {
      assert o !in EMPTY.extents;
      assert OwnedFrom(fs, o) && Inside(o.container, Root(ino), r.visited);
    }
    if InTree(fs, ino, e) {
      if HoldsExtent(At(fs, Root(ino)), e) {
        RecordedExtent(fs, Root(ino), r, e);
      } else {
        var b :| LedTo(fs, root, b) && HoldsExtent(BlockAt(fs, b), e);
        RecordedExtent(fs, Blk(b), r, e);
      }
    }
  }

  lemma RecordedExtent(fs: Fs, l: Loc, r: Scan, e: Extent)
    requires Recorded(fs, l, r) && HoldsExtent(At(fs, l), e)
    ensures exists o :: o in r.extents && o.extent == e
  {
    var es := At(fs, l).node.extents;
    var i :| 0 <= i < |es| && es[i] == e;
    assert Owned(es[i], l, i) in r.extents;
  }

  /** What a file block reads as, from the leaves of the tree alone. */
  lemma ReadMeans(fs: Fs, ino: nat, logical: nat)
    ensures Read(fs, ino, logical) == Unreadable <==> !WellFormed(fs, ino)
    ensures WellFormed(fs, ino) ==>
      (Read(fs, ino, logical) == Hole <==> forall e :: InTree(fs, ino, e) ==> !(e.logical <= logical < e.logical + e.length))
  {
    hide ScanInode, WellFormed, InTree, Pick;
    ScansIffWellFormed(fs, ino);
    if WellFormed(fs, ino) {
      var es := ScanInode(fs, ino).extents;
      var i := Pick(es, logical);
      if i < |es| {
        ScannedExtents(fs, ino, es[i].extent);
        assert es[i] in es;
      } else {
        forall e | InTree(fs, ino, e) ensures !(e.logical <= logical < e.logical + e.length) {
          ScannedExtents(fs, ino, e);
          var o :| o in es && o.extent == e;
          var j :| 0 <= j < |es| && es[j] == o;
        }
      }
    }
  }

  /** The block an extent maps, when no other extent of the tree covers the same file block. */
  lemma ReadExtent(fs: Fs, ino: nat, logical: nat, e: Extent)
    requires WellFormed(fs, ino) && InTree(fs, ino, e) && e.logical <= logical < e.logical + e.length
    requires forall f :: InTree(fs, ino, f) && f.logical <= logical < f.logical + f.length ==> f == e
    ensures Read(fs, ino, logical) == if e.unwritten then Zeroes else Bytes(BlockAt(fs, e.physical + (logical - e.logical)))
  {
    hide ScanInode, WellFormed, InTree, Pick;
    ScannedExtents(fs, ino, e);
    var es := ScanInode(fs, ino).extents;
    var o :| o in es && o.extent == e;
    var j :| 0 <= j < |es| && es[j] == o;
    var i := Pick(es, logical);
    assert i < |es|;
    ScannedExtents(fs, ino, es[i].extent);
    assert es[i] in es;
  }
}
