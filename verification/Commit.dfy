/**
 commit_staged_relocation of src/ext4/mutate.cpp: for each move reserve the destination, check the
 staged copy, switch the owner and release the source, with a flush after each stage.
 */
module Commit {
  import opened Arithmetic
  import opened ExtentTree
  import opened Relocation
  import opened CommitDisk
  import J = Journal

  // ---------- allocation ranges ----------

  lemma GroupOf(geo: Geometry, pos: nat) returns (g: nat)
    requires GeometryOk(geo) && geo.firstData <= pos < geo.blocks
    ensures g == (pos - geo.firstData) / geo.perGroup && g < Groups(geo)
    ensures GroupStart(geo, g) <= pos < GroupStart(geo, g) + GroupCount(geo, g)
  {
    var d := pos - geo.firstData;
    var data := geo.blocks - geo.firstData;
    var k := geo.perGroup;
    g := d / k;
    MulGap(g, data / k, k);
    MulGap(g, data / k - 1, k);
    Euclid(d, k);
    Euclid(data, k);
    assert g <= data / k && (data % k == 0 ==> g < data / k);
    assert GroupStart(geo, g) == geo.firstData + g * k;
  }

  lemma GroupsApart(geo: Geometry, g: nat, h: nat)
    requires GeometryOk(geo) && g < h
    ensures GroupStart(geo, g) + geo.perGroup <= GroupStart(geo, h)
  {
    MulGap(h, g, geo.perGroup);
  }

  function Updated(used: set<nat>, start: nat, length: nat, value: bool): set<nat> {
    if value then used + Range(start, length) else used - Range(start, length)
  }

  predicate Touches(geo: Geometry, start: nat, length: nat, g: nat) {
    length > 0 && GroupStart(geo, g) < start + length && start < GroupStart(geo, g) + GroupCount(geo, g)
  }

  /** The groups a range lies in. */
  ghost function Touched(geo: Geometry, start: nat, length: nat): set<nat>
    requires GeometryOk(geo)
  {
    set g | 0 <= g < Groups(geo) && Touches(geo, start, length, g)
  }

  /** The groups whose descriptor agrees with their bitmap. */
  ghost function GoodGroups(geo: Geometry, d: Disk): set<nat>
    requires GeometryOk(geo)
  {
    set g | 0 <= g < Groups(geo) && GroupOk(geo, d, g)
  }

  /** The groups whose bitmap may be changed. */
  ghost function SealedGroups(geo: Geometry, d: Disk): set<nat>
    requires GeometryOk(geo)
  {
    set g | 0 <= g < Groups(geo) && Sealed(geo, d, g)
  }

  lemma GoodIsSealed(geo: Geometry, d: Disk)
    requires GeometryOk(geo)
    ensures GoodGroups(geo, d) <= SealedGroups(geo, d)
  {
    hide Groups, GroupFree, GroupBits;
  }

  /** A change inside group `g` leaves the other groups alone. */
  lemma OtherGroup(geo: Geometry, used: set<nat>, g: nat, h: nat, pos: nat, n: nat, value: bool)
    requires GeometryOk(geo) && g != h && GroupStart(geo, g) <= pos && pos + n <= GroupStart(geo, g) + GroupCount(geo, g)
    ensures GroupFree(geo, Updated(used, pos, n, value), h) == GroupFree(geo, used, h)
    ensures GroupBits(geo, Updated(used, pos, n, value), h) == GroupBits(geo, used, h)
  {
    if g < h { GroupsApart(geo, g, h); } else { GroupsApart(geo, h, g); }
    var blocks := Range(GroupStart(geo, h), GroupCount(geo, h));
    assert blocks - Updated(used, pos, n, value) == blocks - used;
    assert blocks * Updated(used, pos, n, value) == blocks * used;
  }

  /** A part of one group adds that group to those touched. */
  lemma TouchedMore(geo: Geometry, start: nat, length: nat, g: nat, n: nat)
    requires GeometryOk(geo) && g < Groups(geo) && n > 0
    requires GroupStart(geo, g) <= start + length && start + length + n <= GroupStart(geo, g) + GroupCount(geo, g)
    ensures Touched(geo, start, length + n) == Touched(geo, start, length) + {g}
  {
    hide Groups;
    forall h: nat ensures Touches(geo, start, length + n, h) <==> Touches(geo, start, length, h) || h == g {
      if h < g { GroupsApart(geo, h, g); } else if g < h { GroupsApart(geo, g, h); }
    }
  }

  /** Any mixture of the bits of this update is safe. */
  ghost predicate BitsSafe(p: Plan, rho: Moves, fs: Fs, used: set<nat>, start: nat, length: nat, value: bool) {
    forall u :: used * Updated(used, start, length, value) <= u <= used + Updated(used, start, length, value) ==> Safe(p, rho, fs, u)
  }

  /**
   set_allocation_range: one bitmap and one descriptor per touched group, then a flush. Refused exactly
   at a group whose bitmap and descriptor do not belong together; afterwards the touched groups agree.
   */
  method SetRange(dev: FsDevice, geo: Geometry, start: nat, length: nat, value: bool, ghost p: Plan, ghost rho: Moves)
    returns (r: MoveResult)
    requires GeometryOk(geo) && geo.firstData <= start && start + length <= geo.blocks
    requires dev.durable == dev.view && Marked(dev.view, false) && Guards(p, geo, dev.trace) && Undamaged(p, rho, dev.view.fs)
    requires BitsSafe(p, rho, dev.view.fs, dev.view.used, start, length, value)
    modifies dev
    ensures Guards(p, geo, dev.trace) && dev.failed == (old(dev.failed) || r == Failed)
    ensures dev.view.fs == old(dev.view).fs && dev.view.super == old(dev.view).super
    ensures r != Done ==> dev.durable == old(dev.durable)
    ensures r == Done ==> dev.durable == dev.view && dev.view.used == Updated(old(dev.view).used, start, length, value)
    ensures r == Done ==> Renewed(geo, old(dev.view), dev.view, Touched(geo, start, length))
    ensures r.Refused? ==> r.why == Unsealed && !(Touched(geo, start, length) <= SealedGroups(geo, old(dev.view)))
  {
    hide Safe, Guarded, Undamaged, Touched, GoodGroups, SealedGroups, Sealed;
    ghost var d := dev.view;
    var pos, left := start, length;
    NothingTouched(geo, start, d);
    while left > 0
      invariant dev.failed == old(dev.failed)
      invariant pos + left == start + length && start <= pos && left >= 0
      invariant dev.durable == d && dev.view == d.(used := Updated(d.used, start, pos - start, value), groups := dev.view.groups)
      invariant Guards(p, geo, dev.trace)
      invariant Renewed(geo, d, dev.view, Touched(geo, start, pos - start))
    {
      ghost var g0 := GroupOf(geo, pos);
      var g := (pos - geo.firstData) / geo.perGroup;
      var index := pos - GroupStart(geo, g);
      var n := if left < GroupCount(geo, g) - index then left else GroupCount(geo, g) - index;
      TouchedMore(geo, start, pos - start, g, n);
      r := SetGroup(dev, geo, g, pos, n, value, d, start, length, p, rho);
      if r != Done {
        if r.Refused? { UnsealedIn(geo, d, start, length, g, pos, n); }
        return;
      }
      pos := pos + n;
      left := left - n;
    }
    assert pos - start == length;
    var ok := dev.Flush();
    if !ok { return Failed; }
    RestOfBits(p, geo, rho, d, dev.view, start, length, value);
    assert dev.trace[|dev.trace| - 1] == (dev.view, dev.view);
    r := Done;
  }

  /** Exactly `gs` were checked and rewritten, so that they agree; the others are as they were. */
  ghost predicate Renewed(geo: Geometry, before: Disk, after: Disk, gs: set<nat>)
    requires GeometryOk(geo)
  {
    && gs <= SealedGroups(geo, before) && SealedGroups(geo, after) == SealedGroups(geo, before)
    && GoodGroups(geo, after) == GoodGroups(geo, before) + gs
  }

  lemma NothingTouched(geo: Geometry, start: nat, d: Disk)
    requires GeometryOk(geo)
    ensures Touched(geo, start, 0) == {} && Renewed(geo, d, d, {}) && Updated(d.used, start, 0, true) == d.used == Updated(d.used, start, 0, false)
  {
    hide Groups, GroupFree, GroupBits;
    assert Range(start, 0) == {};
  }

  lemma UnsealedIn(geo: Geometry, d: Disk, start: nat, length: nat, g: nat, pos: nat, n: nat)
    requires GeometryOk(geo) && g < Groups(geo) && g !in SealedGroups(geo, d) && start <= pos && n > 0 && pos + n <= start + length
    requires GroupStart(geo, g) <= pos && pos + n <= GroupStart(geo, g) + GroupCount(geo, g)
    ensures !(Touched(geo, start, length) <= SealedGroups(geo, d))
  {
    hide Groups, SealedGroups;
    assert g in Touched(geo, start, length);
  }

  lemma RestOfBits(p: Plan, geo: Geometry, rho: Moves, d: Disk, v: Disk, start: nat, length: nat, value: bool)
    requires GeometryOk(geo) && Marked(d, false) && BitsSafe(p, rho, d.fs, d.used, start, length, value) && Undamaged(p, rho, d.fs)
    requires v == d.(used := Updated(d.used, start, length, value), groups := v.groups)
    ensures Guarded(p, geo, (v, v))
  {
    hide Safe, Undamaged;
    assert Safe(p, rho, d.fs, v.used);
    BitsGuarded(p, geo, rho, v, v);
  }

  /** rewrite_group_bitmap: the group's bits, then its recounted and resealed descriptor. */
  method SetGroup(dev: FsDevice, geo: Geometry, g: nat, pos: nat, n: nat, value: bool,
                  ghost d: Disk, ghost start: nat, ghost length: nat, ghost p: Plan, ghost rho: Moves)
    returns (r: MoveResult)
    requires GeometryOk(geo) && g < Groups(geo) && GroupStart(geo, g) <= pos && pos + n <= GroupStart(geo, g) + GroupCount(geo, g)
    requires start <= pos && pos + n <= start + length && Marked(d, false)
    requires dev.durable == d && dev.view == d.(used := Updated(d.used, start, pos - start, value), groups := dev.view.groups)
    requires BitsSafe(p, rho, d.fs, d.used, start, length, value) && Undamaged(p, rho, d.fs)
    requires Guards(p, geo, dev.trace)
    modifies dev
    ensures dev.durable == d && Guards(p, geo, dev.trace) && dev.failed == (old(dev.failed) || r == Failed)
    ensures dev.view.fs == d.fs && dev.view.super == d.super
    ensures r.Refused? <==> g !in SealedGroups(geo, old(dev.view))
    ensures r.Refused? ==> r.why == Unsealed && dev.view == old(dev.view) && dev.trace == old(dev.trace)
    ensures r == Done ==> dev.view == d.(used := Updated(d.used, start, pos + n - start, value), groups := dev.view.groups)
    ensures r == Done ==> Renewed(geo, old(dev.view), dev.view, {g})
  {
    hide Safe, GroupFree, GroupBits, Guarded, Undamaged, Groups;
    ghost var before := dev.view;
    if !Sealed(geo, dev.view, g) { return Refused(Unsealed); }
    var ok := dev.WriteBits(pos, n, value);
    assert dev.view.used == Updated(d.used, start, pos + n - start, value);
    assert dev.view.used == Updated(before.used, pos, n, value);
    MixedBits(p, geo, rho, d, dev.view, start, length, value, pos + n - start);
    if !ok { return Failed; }
    ok := dev.WriteDesc(g, DescOf(geo, dev.view.used, g));
    MixedBits(p, geo, rho, d, dev.view, start, length, value, pos + n - start);
    if !ok { return Failed; }
    GroupRenewed(geo, before, dev.view, g, pos, n, value);
    r := Done;
  }

  lemma GroupRenewed(geo: Geometry, d: Disk, v: Disk, g: nat, pos: nat, n: nat, value: bool)
    requires GeometryOk(geo) && g < Groups(geo) && GroupStart(geo, g) <= pos && pos + n <= GroupStart(geo, g) + GroupCount(geo, g)
    requires g in SealedGroups(geo, d) && v.used == Updated(d.used, pos, n, value) && v.groups == d.groups[g := DescOf(geo, v.used, g)]
    ensures Renewed(geo, d, v, {g})
  {
    hide Groups, GroupFree, GroupBits, Updated;
    forall h: nat | h != g ensures (GroupOk(geo, v, h) <==> GroupOk(geo, d, h)) && (Sealed(geo, v, h) <==> Sealed(geo, d, h)) {
      OtherGroup(geo, d.used, g, h, pos, n, value);
    }
  }

  lemma MixedBits(p: Plan, geo: Geometry, rho: Moves, d: Disk, v: Disk, start: nat, length: nat, value: bool, done: nat)
    requires GeometryOk(geo) && Marked(d, false) && done <= length && Undamaged(p, rho, d.fs)
    requires BitsSafe(p, rho, d.fs, d.used, start, length, value)
    requires v == d.(used := Updated(d.used, start, done, value), groups := v.groups)
    ensures Guarded(p, geo, (d, v))
  {
    hide Safe, Undamaged;
    var full := Updated(d.used, start, length, value);
    forall u | d.used * v.used <= u <= d.used + v.used ensures Safe(p, rho, d.fs, u) {
      assert d.used * full <= u <= d.used + full;
    }
    BitsGuarded(p, geo, rho, d, v);
  }

  // ---------- finding the owner ----------

  datatype Found = Found(block: nat, at: Loc, index: nat) | NotFound

  /** Index of the first tree block at either place, or |ts|. */
  function FirstRef(ts: seq<TreeRef>, a: nat, b: nat): (r: nat)
    ensures r <= |ts| && (r < |ts| ==> ts[r].block == a || ts[r].block == b)
    ensures forall j :: 0 <= j < r ==> ts[j].block != a && ts[j].block != b
  {
    if ts == [] then 0
    else if ts[0].block == a || ts[0].block == b then 0
    else 1 + FirstRef(ts[1..], a, b)
  }

  /** current_data_owner and current_tree_owner: where the moved thing is referred to right now. */
  function Lookup(fs: Fs, m: OwnerMove): Found {
    match ScanInode(fs, m.inode)
    case Corrupt => NotFound
    case Scan(es, ts, _) =>
      if m.kind == DataExtent then
        var k := Pick(es, m.logical);
        if k == |es| || es[k].extent.logical != m.logical || es[k].extent.length != m.count then NotFound
        else Found(es[k].extent.physical, es[k].container, es[k].index)
      else
        var k := FirstRef(ts, m.source, m.destination);
        if k == |ts| then NotFound else Found(ts[k].block, ts[k].parent, ts[k].index)
  }

  method FindOwner(fs: Fs, m: OwnerMove) returns (f: Found)
    ensures f == Lookup(fs, m)
  {
    hide ScanInode, Pick, FirstRef;
    var s := ScanTree(fs, m.inode);
    if s.Corrupt? { return NotFound; }
    if m.kind == DataExtent {
      var k := PickExtent(s.extents, m.logical);
      if k == |s.extents| { return NotFound; }
      var e := s.extents[k];
      if e.extent.logical != m.logical || e.extent.length != m.count { return NotFound; }
      f := Found(e.extent.physical, e.container, e.index);
    } else {
      var k := FirstRef(s.trees, m.source, m.destination);
      if k == |s.trees| { return NotFound; }
      f := Found(s.trees[k].block, s.trees[k].parent, s.trees[k].index);
    }
  }

  /** Extents of one inode never overlap logically. */
  ghost predicate LogicallyApart(fs: Fs) {
    forall ino :: ino in fs.roots && ScanInode(fs, ino).Scan? ==> ExtentsApart(ScanInode(fs, ino).extents)
  }

  ghost predicate ExtentsApart(es: seq<Owned>) {
    forall i, j :: 0 <= i < |es| && 0 <= j < |es| && i != j ==>
      Apart(es[i].extent.logical, es[i].extent.length, es[j].extent.logical, es[j].extent.length)
  }

  /** On every undamaged safe disk the lookup finds the owner, at its source or its destination. */
  lemma LookupFinds(p: Plan, rho: Moves, fs: Fs, used: set<nat>, i: nat)
    requires Safe(p, rho, fs, used) && Undamaged(p, rho, fs) && LogicallyApart(p.fs0) && i < |p.moves|
    ensures |p.owners| == |p.moves|
    ensures Lookup(fs, p.moves[i]) == OwnerFound(p, rho, i)
  {
    hide Safe, Planned, ScanInode, Pick, FirstRef, Undamaged, LogicallyApart, MovedLoc, Moved;
    SafePlanned(p, rho, fs, used);
    MoveFacts(p, i);
    OwnerFacts(p.fs0, p.owners[i]);
    SafeReads(p, rho, fs, used, p.moves[i].inode, 0);
    if p.moves[i].kind == DataExtent {
      DataLookup(p, rho, i);
    } else {
      TreeLookup(p, rho, i);
    }
  }

  /** Whatever extents overlap logically, an answer that names the source or the destination is the owner. */
  lemma LookupSound(p: Plan, rho: Moves, fs: Fs, used: set<nat>, i: nat)
    requires Safe(p, rho, fs, used) && Undamaged(p, rho, fs) && i < |p.moves|
    ensures |p.owners| == |p.moves|
    ensures var m, f := p.moves[i], Lookup(fs, p.moves[i]);
      (f.Found? && (f.block == m.source || f.block == m.destination)) || m.kind == TreeBlock ==> f == OwnerFound(p, rho, i)
  {
    hide Safe, Planned, ScanInode, Pick, FirstRef, Undamaged, MovedLoc, Moved;
    SafePlanned(p, rho, fs, used);
    MoveFacts(p, i);
    OwnerFacts(p.fs0, p.owners[i]);
    SafeReads(p, rho, fs, used, p.moves[i].inode, 0);
    if p.moves[i].kind == DataExtent {
      DataLookupSound(p, rho, i);
    } else {
      TreeLookup(p, rho, i);
    }
  }

  /** Where the owner of move `i` is referred to. */
  ghost function OwnerFound(p: Plan, rho: Moves, i: nat): Found
    requires i < |p.moves| && |p.owners| == |p.moves|
  {
    Found(Moved(rho, p.moves[i].source), MovedLoc(rho, Container(p.owners[i])), Slot(p.owners[i]))
  }

  lemma DataLookupSound(p: Plan, rho: Moves, i: nat)
    requires Planned(p) && Partial(p, rho) && i < |p.moves| && p.moves[i].kind == DataExtent
    ensures |p.owners| == |p.moves| && p.owners[i].DataOwner?
    ensures var m := p.moves[i];
      var es := MovedScan(rho, ScanInode(p.fs0, m.inode)).extents;
      var k := Pick(es, m.logical);
      k < |es| && (es[k].extent.physical == m.source || es[k].extent.physical == m.destination) ==> es[k] == MovedOwned(rho, p.owners[i].o)
  {
    hide ScanInode, Pick, Planned, Partial;
    MoveFacts(p, i);
    var w := p.owners[i];
    var m := p.moves[i];
    OwnerFacts(p.fs0, w);
    var es0 := ScanInode(p.fs0, m.inode).extents;
    var es := MovedScan(rho, ScanInode(p.fs0, m.inode)).extents;
    var k := Pick(es, m.logical);
    if k < |es| && (es[k].extent.physical == m.source || es[k].extent.physical == m.destination) {
      assert es[k] == MovedOwned(rho, es0[k]);
      var v := DataOwner(m.inode, es0[k]);
      assert IsOwner(p.fs0, v);
      AtMoveIsOwner(p, rho, i, v);
    }
  }

  /** Only the owner of a move is ever at its source or its destination. */
  lemma AtMoveIsOwner(p: Plan, rho: Moves, i: nat, v: Owner)
    requires Planned(p) && Partial(p, rho) && i < |p.moves| && IsOwner(p.fs0, v)
    requires Moved(rho, Start(v)) == p.moves[i].source || Moved(rho, Start(v)) == p.moves[i].destination
    ensures |p.owners| == |p.moves| && v == p.owners[i]
  {
    hide IsOwner, Planned, Partial;
    MoveFacts(p, i);
    var w := p.owners[i];
    OwnerFacts(p.fs0, v);
    OwnerFacts(p.fs0, w);
    PresentBlock(p, rho, i);
    if p.moves[i].source in rho { SourceUnused(p, rho, i, v); } else { DestinationUnused(p, rho, i, v); }
    if v != w { PresentApart(p, rho, v, w); }
  }

  lemma SafePlanned(p: Plan, rho: Moves, fs: Fs, used: set<nat>)
    requires Safe(p, rho, fs, used)
    ensures Planned(p) && Partial(p, rho)
  {
  }

  lemma DataLookup(p: Plan, rho: Moves, i: nat)
    requires Planned(p) && LogicallyApart(p.fs0) && i < |p.moves| && p.moves[i].kind == DataExtent
    ensures var m := p.moves[i];
      var es := MovedScan(rho, ScanInode(p.fs0, m.inode)).extents;
      var k := Pick(es, m.logical);
      p.owners[i].DataOwner? && k < |es| && es[k] == MovedOwned(rho, p.owners[i].o)
  {
    hide ScanInode, Pick, Planned;
    MoveFacts(p, i);
    var w := p.owners[i];
    var m := p.moves[i];
    OwnerFacts(p.fs0, w);
    var es0 := ScanInode(p.fs0, m.inode).extents;
    var es := MovedScan(rho, ScanInode(p.fs0, m.inode)).extents;
    var k :| 0 <= k < |es0| && es0[k] == w.o;
    assert ExtentsApart(es0);
    forall j | 0 <= j < |es| && j != k ensures !Covers(es[j].extent, m.logical) {
      assert Apart(es0[k].extent.logical, es0[k].extent.length, es0[j].extent.logical, es0[j].extent.length);
      assert es[j] == MovedOwned(rho, es0[j]);
    }
    assert es[k] == MovedOwned(rho, es0[k]);
    PickFinds(es, m.logical, k);
  }

  lemma TreeLookup(p: Plan, rho: Moves, i: nat)
    requires Planned(p) && Partial(p, rho) && i < |p.moves| && p.moves[i].kind == TreeBlock
    ensures var m := p.moves[i];
      var ts := MovedScan(rho, ScanInode(p.fs0, m.inode)).trees;
      var k := FirstRef(ts, m.source, m.destination);
      p.owners[i].TreeOwner? && k < |ts| && ts[k] == MovedRef(rho, p.owners[i].t)
  {
    hide ScanInode, Planned, Partial, FirstRef;
    MoveFacts(p, i);
    var w := p.owners[i];
    var m := p.moves[i];
    OwnerFacts(p.fs0, w);
    var ts0 := ScanInode(p.fs0, m.inode).trees;
    var ts := MovedScan(rho, ScanInode(p.fs0, m.inode)).trees;
    var k := FirstRef(ts, m.source, m.destination);
    var own :| 0 <= own < |ts0| && ts0[own] == w.t;
    assert ts[own] == MovedRef(rho, w.t);
    PresentBlock(p, rho, i);
    assert k <= own;
    assert ts[k] == MovedRef(rho, ts0[k]);
    var v := TreeOwner(m.inode, ts0[k]);
    assert IsOwner(p.fs0, v);
    if v != w {
      if m.source in rho { SourceUnused(p, rho, i, v); } else { DestinationUnused(p, rho, i, v); }
      PresentApart(p, rho, v, w);
    }
  }

  lemma PresentBlock(p: Plan, rho: Moves, i: nat)
    requires Planned(p) && Partial(p, rho) && i < |p.moves|
    ensures Moved(rho, p.moves[i].source) == if p.moves[i].source in rho then p.moves[i].destination else p.moves[i].source
  {
    hide Planned;
    MoveFacts(p, i);
    if p.moves[i].source in rho {
      var j := MoveOf(p, rho, p.owners[i]);
      OnlyMove(p, i, j);
    }
  }

  lemma OnlyMove(p: Plan, i: nat, j: nat)
    requires Planned(p) && i < |p.moves| && j < |p.moves| && p.owners[i] == p.owners[j]
    ensures i == j
  {
    hide IsOwner;
  }

  // ---------- switching one owner ----------

  /** Between two stages: everything flushed, marked dirty, safe, and every crash so far accounted for. */
  ghost predicate Rest(dev: FsDevice, p: Plan, geo: Geometry, rho: Moves)
    reads dev
  {
    && GeometryOk(geo) && geo.blocks == p.fs0.blocksCount
    && dev.durable == dev.view && Marked(dev.view, false)
    && Safe(p, rho, dev.view.fs, dev.view.used) && Undamaged(p, rho, dev.view.fs)
    && Guards(p, geo, dev.trace)
  }

  lemma SwitchUndamaged(p: Plan, rho: Moves, fs: Fs, used: set<nat>, i: nat, b: Block)
    requires Safe(p, rho, fs, used) && Undamaged(p, rho, fs) && i < |p.moves| && p.moves[i].source !in rho && b != Damaged
    requires |p.owners| == |p.moves| && CopyReady(p, rho, fs, i)
    ensures Undamaged(p, rho[p.moves[i].source := p.moves[i].destination], SetAt(fs, MovedLoc(rho, Container(p.owners[i])), b))
  {
    hide Safe, Planned, Partial, InTree, IsOwner, Kept;
    SafePlanned(p, rho, fs, used);
    MoveFacts(p, i);
    var m := p.moves[i];
    var rho' := rho[m.source := m.destination];
    var at := MovedLoc(rho, Container(p.owners[i]));
    var fs' := SetAt(fs, at, b);
    forall ino, l | InTree(p.fs0, ino, l) ensures At(fs', MovedLoc(rho', l)) != Damaged {
      assert At(fs, MovedLoc(rho, l)) != Damaged;
      if l.Blk? && l.block == m.source {
        var v := BlockIsOwned(p.fs0, ino, l.block);
        OwnersApart(p, v, p.owners[i]);
      }
    }
  }

  lemma CopyUndamaged(p: Plan, rho: Moves, fs: Fs, used: set<nat>, i: nat, b: Block)
    requires Safe(p, rho, fs, used) && Undamaged(p, rho, fs) && i < |p.moves| && p.moves[i].source !in rho
    requires b != Damaged
    ensures Undamaged(p, rho, SetAt(fs, Blk(p.moves[i].destination), b))
  {
    hide Safe, InTree;
  }

  /** update_data_owner and update_tree_parent: one entry of one node, then a flush. */
  method UpdateOwner(dev: FsDevice, geo: Geometry, m: OwnerMove, ghost p: Plan, ghost rho: Moves, ghost i: nat)
    returns (ok: bool)
    requires Rest(dev, p, geo, rho) && Lookup(dev.view.fs, m).Found? && Lookup(dev.view.fs, m).block == m.source
    requires i < |p.moves| && p.moves[i] == m && m.source !in rho
    requires Range(m.destination, m.count) <= dev.view.used
    requires |p.owners| == |p.moves| && CopyReady(p, rho, dev.view.fs, i)
    modifies dev
    ensures Guards(p, geo, dev.trace) && dev.failed == (old(dev.failed) || !ok)
    ensures dev.durable.used == old(dev.durable).used
    ensures ok ==> Rest(dev, p, geo, rho[m.source := m.destination])
    ensures ok ==> dev.view == old(dev.view).(fs := dev.view.fs)
  {
    hide Safe, Undamaged, Guarded, CopyReady, Lookup, SetAt, Redirect;
    ghost var d := dev.view;
    ghost var rho' := rho[m.source := m.destination];
    LookupSound(p, rho, d.fs, d.used, i);
    ContainerNode(p, rho, d.fs, d.used, i);
    var f := FindOwner(dev.view.fs, m);
    if f.NotFound? || f.block != m.source { return false; }
    var container := At(dev.view.fs, f.at);
    if !container.Tree? || f.index >= Size(container.node) { return false; }
    var b := Tree(Redirect(container.node, f.index, m.destination));
    OwnerWriteGuarded(p, geo, rho, d, i, b);
    ok := dev.WriteNode(f.at, b);
    if !ok { return; }
    SwitchUndamaged(p, rho, d.fs, d.used, i, b);
    RestGuarded(p, geo, rho', dev.view);
    ok := dev.Flush();
  }

  /** The node that holds the owner's entry is intact and has that entry. */
  lemma ContainerNode(p: Plan, rho: Moves, fs: Fs, used: set<nat>, i: nat)
    requires Safe(p, rho, fs, used) && Undamaged(p, rho, fs) && i < |p.moves| && p.moves[i].source !in rho
    ensures |p.owners| == |p.moves|
    ensures var at := MovedLoc(rho, Container(p.owners[i]));
      At(fs, at).Tree? && Slot(p.owners[i]) < Size(At(fs, at).node)
  {
    hide Planned, Partial, IsOwner, InTree, Kept, StagedIntact, InMoves;
    MoveFacts(p, i);
    var w := p.owners[i];
    OwnerFacts(p.fs0, w);
    SwitchNode(p, rho, i);
    assert Holds(p.fs0, rho, fs, Container(w));
    assert At(fs, MovedLoc(rho, Container(w))) != Damaged;
  }

  lemma OwnerWriteGuarded(p: Plan, geo: Geometry, rho: Moves, d: Disk, i: nat, b: Block)
    requires GeometryOk(geo) && Marked(d, false) && Safe(p, rho, d.fs, d.used) && Undamaged(p, rho, d.fs)
    requires i < |p.moves| && p.moves[i].source !in rho && |p.owners| == |p.moves| && CopyReady(p, rho, d.fs, i)
    requires Range(p.moves[i].destination, p.moves[i].count) <= d.used
    requires var at := MovedLoc(rho, Container(p.owners[i]));
      && At(d.fs, at).Tree? && Slot(p.owners[i]) < Size(At(d.fs, at).node)
      && b == Tree(Redirect(At(d.fs, at).node, Slot(p.owners[i]), p.moves[i].destination))
    ensures var at := MovedLoc(rho, Container(p.owners[i]));
      && Guarded(p, geo, (d, d.(fs := SetAt(d.fs, at, b))))
      && Safe(p, rho[p.moves[i].source := p.moves[i].destination], SetAt(d.fs, at, b), d.used)
  {
    hide Planned, Partial, Guarded, CopyReady, IsOwner, InTree, Holds, Kept, StagedIntact, InMoves, Redirect, SetAt;
    var w := p.owners[i];
    var at := MovedLoc(rho, Container(w));
    MoveFacts(p, i);
    OwnerFacts(p.fs0, w);
    RootPresent(p, rho, d.fs, d.used, w.ino, Container(w));
    if w.TreeOwner? { SourceNodePresent(p, rho, d.fs, d.used, i); }
    SwitchSafe(p, rho, d.fs, d.used, i);
    SwitchUndamaged(p, rho, d.fs, d.used, i, b);
    DamageSafe(p, rho, d.fs, d.used, w.ino, Container(w));
    NodeGuarded(p, geo, d, d.(fs := SetAt(d.fs, at, b)), at, b, rho, rho[p.moves[i].source := p.moves[i].destination]);
  }

  /** The tree block about to move holds an intact node. */
  lemma SourceNodePresent(p: Plan, rho: Moves, fs: Fs, used: set<nat>, i: nat)
    requires Safe(p, rho, fs, used) && Undamaged(p, rho, fs) && i < |p.moves| && p.moves[i].source !in rho
    requires p.moves[i].kind == TreeBlock
    ensures At(fs, Blk(p.moves[i].source)).Tree?
  {
    hide Planned, Partial, IsOwner, InTree, Kept, StagedIntact, InMoves;
    MoveFacts(p, i);
    OwnerFacts(p.fs0, p.owners[i]);
    var l := Blk(p.moves[i].source);
    assert InTree(p.fs0, p.owners[i].ino, l);
    assert Holds(p.fs0, rho, fs, l);
    assert At(fs, MovedLoc(rho, l)) != Damaged;
  }

  /** refresh_tree_copy: the node is copied again just before its parent is switched. */
  method RefreshCopy(dev: FsDevice, geo: Geometry, m: OwnerMove, ghost p: Plan, ghost rho: Moves, ghost i: nat)
    returns (ok: bool)
    requires Rest(dev, p, geo, rho) && i < |p.moves| && p.moves[i] == m && m.source !in rho && m.kind == TreeBlock
    modifies dev
    ensures Guards(p, geo, dev.trace) && dev.failed == (old(dev.failed) || !ok)
    ensures dev.durable.used == old(dev.durable).used
    ensures ok ==> Rest(dev, p, geo, rho) && dev.view == old(dev.view).(fs := dev.view.fs)
    ensures ok ==> BlockAt(dev.view.fs, m.destination) == BlockAt(dev.view.fs, m.source)
  {
    hide Safe, Undamaged, Guarded;
    ghost var d := dev.view;
    var b := BlockAt(dev.view.fs, m.source);
    SourceNodePresent(p, rho, d.fs, d.used, i);
    if !b.Tree? { return false; }
    CopySafe(p, rho, d.fs, d.used, i, b);
    CopySafe(p, rho, d.fs, d.used, i, Damaged);
    CopyUndamaged(p, rho, d.fs, d.used, i, b);
    NodeGuarded(p, geo, d, d.(fs := SetAt(d.fs, Blk(m.destination), b)), Blk(m.destination), b, rho, rho);
    ok := dev.WriteNode(Blk(m.destination), b);
    if !ok { return; }
    RestGuarded(p, geo, rho, dev.view);
    ok := dev.Flush();
    if !ok { return; }
    ok := BlockAt(dev.view.fs, m.destination) == b;
  }

  // ---------- one move ----------

  function KindCode(k: MoveKind): nat {
    match k case DataExtent => 1 case TreeBlock => 2
  }

  /** move_record. */
  function MoveRecord(kind: J.RecordType, m: OwnerMove): J.Record {
    J.Record(kind, 0, m.transaction, m.source, m.destination, m.count, m.inode, m.logical, 0, KindCode(m.kind))
  }

  /** A record carries its move's number, both places, length, inode, file block and kind. */
  lemma RecordCarries(kind: J.RecordType, m: OwnerMove)
    ensures var r := MoveRecord(kind, m);
      && r.kind == kind && r.transaction == m.transaction && r.source == m.source && r.destination == m.destination && r.blocks == m.count
      && r.inode == m.inode && r.aux == m.logical && r.state == if m.kind == DataExtent then 1 else 2
  {
  }

  /**
   The journal as the commit uses it: an append that reports success has landed; one that fails may
   have landed all the same, as a whole, and ends the run. `failed` remembers that one has failed.
   */
  class Log {
    var entries: seq<J.Record>
    ghost var failed: bool

    constructor ()
      ensures entries == [] && !failed
    {
      entries, failed := [], false;
    }

    method AppendBatch(rs: seq<J.Record>) returns (ok: bool)
      modifies this
      ensures entries == old(entries) + rs || (!ok && entries == old(entries))
      ensures failed == (old(failed) || !ok)
    {
      ok := *;
      var landed := *;
      if ok || landed { entries := entries + rs; }
      failed := failed || !ok;
    }

    method Append(r: J.Record) returns (ok: bool)
      modifies this
      ensures entries == old(entries) + [r] || (!ok && entries == old(entries))
      ensures failed == (old(failed) || !ok)
    {
      ok := AppendBatch([r]);
    }
  }

  function Contents(fs: Fs, start: nat, n: nat): seq<Block> {
    seq(n, i requires 0 <= i < n => BlockAt(fs, start + i))
  }

  /** A staged copy whose checksum equals the journalled one is the copy of its source. */
  ghost predicate Trusted(p: Plan, crc: seq<Block> -> nat, sums: seq<nat>) {
    && |sums| == |p.moves|
    && forall i :: 0 <= i < |p.moves| && p.moves[i].kind == DataExtent && !p.moves[i].unwritten ==>
      var m := p.moves[i];
      crc(Contents(p.fs0, m.destination, m.count)) == sums[i] ==>
        Contents(p.fs0, m.destination, m.count) == Contents(p.fs0, m.source, m.count)
  }

  predicate StaleCopy(fs: Fs, m: OwnerMove, crc: seq<Block> -> nat, sum: nat) {
    m.kind == DataExtent && !m.unwritten && crc(Contents(fs, m.destination, m.count)) != sum
  }

  lemma StagedContents(p: Plan, fs: Fs, i: nat)
    requires i < |p.moves| && StagedIntact(p, fs, i) && p.moves[i].kind == DataExtent
    ensures Contents(fs, p.moves[i].destination, p.moves[i].count) == Contents(p.fs0, p.moves[i].destination, p.moves[i].count)
  {
    var m := p.moves[i];
    var a, b := Contents(fs, m.destination, m.count), Contents(p.fs0, m.destination, m.count);
    forall j | 0 <= j < |a| ensures a[j] == b[j] {
      assert InRange(m.destination + j, m.destination, m.count);
    }
  }

  /** A fresh staged copy may be switched to. */
  lemma DataCopyReady(p: Plan, rho: Moves, fs: Fs, used: set<nat>, i: nat, crc: seq<Block> -> nat, sums: seq<nat>)
    requires Safe(p, rho, fs, used) && Trusted(p, crc, sums) && i < |p.moves| && p.moves[i].source !in rho
    requires p.moves[i].kind == DataExtent && !StaleCopy(fs, p.moves[i], crc, sums[i])
    ensures |p.owners| == |p.moves| && CopyReady(p, rho, fs, i)
  {
    hide Planned, Partial, IsOwner, InTree, InMoves, Contents, Kept;
    MoveFacts(p, i);
    var m := p.moves[i];
    assert StagedIntact(p, fs, i);
    StagedContents(p, fs, i);
    var e := p.owners[i].o.extent;
    var rho' := rho[m.source := m.destination];
    if e.unwritten {
      KeptUnwritten(p.fs0, rho', fs, e);
    } else {
      KeptFromContents(p.fs0, rho', fs, e, m.destination);
    }
  }

  lemma KeptUnwritten(fs0: Fs, rho: Moves, fs: Fs, e: Extent)
    requires e.unwritten
    ensures Kept(fs0, rho, fs, e)
  {
  }

  lemma KeptFromContents(fs0: Fs, rho: Moves, fs: Fs, e: Extent, d: nat)
    requires Moved(rho, e.physical) == d && Contents(fs, d, e.length) == Contents(fs0, e.physical, e.length)
    ensures Kept(fs0, rho, fs, e)
  {
    var a, b := Contents(fs, d, e.length), Contents(fs0, e.physical, e.length);
    forall q | e.physical <= q < e.physical + e.length ensures BlockAt(fs, d + (q - e.physical)) == BlockAt(fs0, q) {
      assert a[q - e.physical] == b[q - e.physical];
    }
  }

  datatype Refusal = DestinationPartial | SourcePartial | Stale | Inconsistent | Unsealed

  datatype MoveResult = Done | Failed | Refused(why: Refusal)

  /** The records a committed move leaves, given which of its stages were still to do. */
  function Emitted(m: OwnerMove, reserve: bool, switch: bool, release: bool): seq<J.Record> {
    (if reserve then [MoveRecord(J.DestinationReserved, m)] else [])
    + (if switch then [MoveRecord(J.OwnerSwitched, m)] else [])
    + (if release then [MoveRecord(J.SourceReleased, m)] else [])
    + [MoveRecord(J.MetadataCommitted, m)]
  }

  function StageRecords(used: set<nat>, m: OwnerMove, switched: bool): seq<J.Record> {
    Emitted(m, !Full(used, m.destination, m.count), !switched, !Clear(used, m.source, m.count))
  }

  predicate Full(used: set<nat>, start: nat, n: nat) { Range(start, n) <= used }

  predicate Clear(used: set<nat>, start: nat, n: nat) { Range(start, n) !! used }

  /** A call that fails has met a failing device or journal, and one that does not has not. */
  ghost predicate Failing(dev: bool, log: bool, dev0: bool, log0: bool, fails: bool) {
    (dev || log) == (dev0 || log0 || fails)
  }

  /** On this disk the owner of the move is at its destination. */
  ghost predicate SwitchedOn(p: Plan, d: Disk, m: OwnerMove) {
    exists rho :: m.source in rho && Safe(p, rho, d.fs, d.used)
  }

  /** What a record of the move says is so on this disk. */
  ghost predicate TrueOn(kind: J.RecordType, p: Plan, d: Disk, m: OwnerMove) {
    match kind
    case DestinationReserved => Full(d.used, m.destination, m.count)
    case OwnerSwitched => SwitchedOn(p, d, m)
    case SourceReleased => SwitchedOn(p, d, m) && Clear(d.used, m.source, m.count)
    case MetadataCommitted => SwitchedOn(p, d, m) && Clear(d.used, m.source, m.count)
    case _ => false
  }

  /** Every record appended since `before` is true on the durable disk: nothing is recorded before it is flushed. */
  ghost predicate Backed(before: seq<J.Record>, after: seq<J.Record>, p: Plan, d: Disk, m: OwnerMove) {
    |before| <= |after| && forall k :: |before| <= k < |after| ==> TrueOn(after[k].kind, p, d, m)
  }

  lemma NothingBacked(rs: seq<J.Record>, p: Plan, d: Disk, m: OwnerMove)
    ensures Backed(rs, rs, p, d, m)
  {
  }

  lemma BackedFront(before: seq<J.Record>, after: seq<J.Record>, p: Plan, d: Disk, m: OwnerMove, reserve: bool, switch: bool)
    requires var mid := before + (if reserve then [MoveRecord(J.DestinationReserved, m)] else []) + (if switch then [MoveRecord(J.OwnerSwitched, m)] else []);
      mid <= after && Backed(mid, after, p, d, m)
    requires (reserve ==> Full(d.used, m.destination, m.count)) && (switch ==> SwitchedOn(p, d, m))
    ensures Backed(before, after, p, d, m)
  {
    hide SwitchedOn, Full, Clear;
    var mid := before + (if reserve then [MoveRecord(J.DestinationReserved, m)] else []) + (if switch then [MoveRecord(J.OwnerSwitched, m)] else []);
    forall k | |before| <= k < |after| ensures TrueOn(after[k].kind, p, d, m) {
      if k < |mid| { assert after[k] == mid[k]; }
    }
  }

  /** Reserve the destination unless it is already reserved. */
  method ReserveStage(dev: FsDevice, log: Log, geo: Geometry, m: OwnerMove, ghost p: Plan, ghost rho: Moves, ghost i: nat)
    returns (r: MoveResult)
    requires Rest(dev, p, geo, rho) && i < |p.moves| && p.moves[i] == m
    modifies dev, log
    ensures old(log.entries) <= log.entries
    ensures Guards(p, geo, dev.trace) && Failing(dev.failed, log.failed, old(dev.failed), old(log.failed), r == Failed)
    ensures r == Done ==> Rest(dev, p, geo, rho) && dev.view == old(dev.view).(used := old(dev.view).used + Range(m.destination, m.count), groups := dev.view.groups)
    ensures Backed(old(log.entries), log.entries, p, dev.durable, m)
    ensures r == Done ==> log.entries == old(log.entries) + [MoveRecord(J.DestinationReserved, m)]
    ensures r == Done ==> Renewed(geo, old(dev.view), dev.view, Touched(geo, m.destination, m.count))
    ensures r.Refused? ==> r.why == Unsealed && !(Touched(geo, m.destination, m.count) <= SealedGroups(geo, old(dev.view)))
  {
    hide Safe, Undamaged, Guarded, Touched, SealedGroups, GoodGroups;
    ghost var d := dev.view;
    DestinationInside(p, rho, d.fs, d.used, i);
    forall u | d.used * (d.used + Range(m.destination, m.count)) <= u <= d.used + (d.used + Range(m.destination, m.count))
      ensures Safe(p, rho, d.fs, u)
    {
      assert d.used * (d.used + Range(m.destination, m.count)) == d.used;
      assert d.used + (d.used + Range(m.destination, m.count)) == d.used + Range(m.destination, m.count);
      ReserveSafe(p, rho, d.fs, d.used, i, u);
    }
    r := SetRange(dev, geo, m.destination, m.count, true, p, rho);
    if r != Done { return; }
    ReserveSafe(p, rho, d.fs, d.used, i, dev.view.used);
    var ok := log.Append(MoveRecord(J.DestinationReserved, m));
    if !ok { r := Failed; }
  }

  lemma DestinationInside(p: Plan, rho: Moves, fs: Fs, used: set<nat>, i: nat)
    requires Safe(p, rho, fs, used) && i < |p.moves|
    ensures p.moves[i].destination + p.moves[i].count <= p.fs0.blocksCount
    ensures p.moves[i].source + p.moves[i].count <= p.fs0.blocksCount
    ensures p.moves[i].count > 0 && 0 < p.moves[i].source && 0 < p.moves[i].destination
  {
    hide IsOwner, ScanInode, InTree;
    MoveFacts(p, i);
    OwnerFacts(p.fs0, p.owners[i]);
  }

  /** Release the source of a switched move. */
  method ReleaseStage(dev: FsDevice, log: Log, geo: Geometry, m: OwnerMove, ghost p: Plan, ghost rho: Moves, ghost i: nat)
    returns (r: MoveResult)
    requires Rest(dev, p, geo, rho) && i < |p.moves| && p.moves[i] == m && m.source in rho
    modifies dev, log
    ensures old(log.entries) <= log.entries
    ensures Guards(p, geo, dev.trace) && Failing(dev.failed, log.failed, old(dev.failed), old(log.failed), r == Failed)
    ensures r == Done ==> Rest(dev, p, geo, rho) && dev.view == old(dev.view).(used := old(dev.view).used - Range(m.source, m.count), groups := dev.view.groups)
    ensures Backed(old(log.entries), log.entries, p, dev.durable, m) && SwitchedOn(p, dev.durable, m)
    ensures Full(old(dev.view).used, m.destination, m.count) ==> Full(dev.durable.used, m.destination, m.count)
    ensures r == Done ==> log.entries == old(log.entries) + [MoveRecord(J.SourceReleased, m)]
    ensures r == Done ==> Renewed(geo, old(dev.view), dev.view, Touched(geo, m.source, m.count))
    ensures r.Refused? ==> r.why == Unsealed && !(Touched(geo, m.source, m.count) <= SealedGroups(geo, old(dev.view)))
  {
    hide Safe, Undamaged, Guarded, Touched, SealedGroups, GoodGroups;
    ghost var d := dev.view;
    DestinationInside(p, rho, d.fs, d.used, i);
    forall u | d.used * (d.used - Range(m.source, m.count)) <= u <= d.used + (d.used - Range(m.source, m.count))
      ensures Safe(p, rho, d.fs, u)
    {
      assert d.used * (d.used - Range(m.source, m.count)) == d.used - Range(m.source, m.count);
      assert d.used + (d.used - Range(m.source, m.count)) == d.used;
      ReleaseSafe(p, rho, d.fs, d.used, i, u);
    }
    r := SetRange(dev, geo, m.source, m.count, false, p, rho);
    if r != Done { return; }
    ReleaseSafe(p, rho, d.fs, d.used, i, dev.view.used);
    MoveStatus(p, rho, d.fs, d.used, i);
    var ok := log.Append(MoveRecord(J.SourceReleased, m));
    if !ok { r := Failed; }
  }

  /** Check or renew the copy and switch an owner that still refers to its source. */
  method SwitchOwner(dev: FsDevice, geo: Geometry, m: OwnerMove, crc: seq<Block> -> nat, sum: nat,
                     ghost p: Plan, ghost rho: Moves, ghost i: nat, ghost sums: seq<nat>)
    returns (r: MoveResult)
    requires Rest(dev, p, geo, rho) && Trusted(p, crc, sums)
    requires i < |p.moves| && p.moves[i] == m && sums[i] == sum && m.source !in rho
    requires Range(m.destination, m.count) <= dev.view.used
    requires m.kind == DataExtent ==> Lookup(dev.view.fs, m).Found? && Lookup(dev.view.fs, m).block == m.source
    modifies dev
    ensures Guards(p, geo, dev.trace) && dev.failed == (old(dev.failed) || r == Failed)
    ensures dev.durable.used == old(dev.durable).used
    ensures r == Done ==> Rest(dev, p, geo, rho[m.source := m.destination]) && dev.view == old(dev.view).(fs := dev.view.fs)
    ensures r == Done ==> !StaleCopy(old(dev.view).fs, m, crc, sum)
    ensures r.Refused? ==> r.why == Stale && StaleCopy(old(dev.view).fs, m, crc, sum) && dev.view == old(dev.view) && Rest(dev, p, geo, rho)
  {
    hide Safe, Undamaged, Guarded, CopyReady, Trusted, Lookup;
    ghost var d := dev.view;
    SafePlanned(p, rho, d.fs, d.used);
    MoveFacts(p, i);
    var ok: bool;
    if m.kind == DataExtent {
      if StaleCopy(dev.view.fs, m, crc, sum) { return Refused(Stale); }
      DataCopyReady(p, rho, d.fs, d.used, i, crc, sums);
    } else {
      ok := RefreshCopy(dev, geo, m, p, rho, i);
      if !ok { return Failed; }
      TreeCopyReady(p, rho, dev.view.fs, i);
      LookupSound(p, rho, dev.view.fs, dev.view.used, i);
    }
    ok := UpdateOwner(dev, geo, m, p, rho, i);
    r := if ok then Done else Failed;
  }

  /** Switch an owner and record it. */
  method SwitchStage(dev: FsDevice, log: Log, geo: Geometry, m: OwnerMove, crc: seq<Block> -> nat, sum: nat,
                     ghost p: Plan, ghost rho: Moves, ghost i: nat, ghost sums: seq<nat>)
    returns (r: MoveResult)
    requires Rest(dev, p, geo, rho) && Trusted(p, crc, sums)
    requires i < |p.moves| && p.moves[i] == m && sums[i] == sum && m.source !in rho
    requires Range(m.destination, m.count) <= dev.view.used
    requires m.kind == DataExtent ==> Lookup(dev.view.fs, m).Found? && Lookup(dev.view.fs, m).block == m.source
    modifies dev, log
    ensures old(log.entries) <= log.entries
    ensures Guards(p, geo, dev.trace) && Failing(dev.failed, log.failed, old(dev.failed), old(log.failed), r == Failed)
    ensures r == Done ==> Rest(dev, p, geo, rho[m.source := m.destination]) && dev.view == old(dev.view).(fs := dev.view.fs)
    ensures dev.durable.used == old(dev.durable).used && Backed(old(log.entries), log.entries, p, dev.durable, m)
    ensures r == Done ==> Renewed(geo, old(dev.view), dev.view, {})
    ensures r == Done ==> !StaleCopy(old(dev.view).fs, m, crc, sum)
    ensures r == Done ==> log.entries == old(log.entries) + [MoveRecord(J.OwnerSwitched, m)]
    ensures r.Refused? ==> r.why == Stale && StaleCopy(old(dev.view).fs, m, crc, sum) && dev.view == old(dev.view) && Rest(dev, p, geo, rho)
    ensures r.Refused? ==> log.entries == old(log.entries)
  {
    hide Safe, Undamaged, Guarded, Trusted, Lookup, StaleCopy, GoodGroups, SealedGroups;
    ghost var d := dev.view;
    r := SwitchOwner(dev, geo, m, crc, sum, p, rho, i, sums);
    if r != Done { return; }
    SameRenewed(geo, d, dev.view);
    var ok := log.Append(MoveRecord(J.OwnerSwitched, m));
    r := if ok then Done else Failed;
  }

  lemma TreeCopyReady(p: Plan, rho: Moves, fs: Fs, i: nat)
    requires i < |p.moves| && |p.owners| == |p.moves| && p.owners[i].TreeOwner?
    requires BlockAt(fs, p.moves[i].destination) == BlockAt(fs, p.moves[i].source)
    ensures CopyReady(p, rho, fs, i)
  {
  }

  /** The four situations a move can be found in between stages, or neither. */
  predicate Settled(used: set<nat>, m: OwnerMove, switched: bool) {
    if switched then Full(used, m.source, m.count) || Clear(used, m.source, m.count)
    else Full(used, m.destination, m.count) || Clear(used, m.destination, m.count)
  }

  function After(used: set<nat>, m: OwnerMove): set<nat> {
    used + Range(m.destination, m.count) - Range(m.source, m.count)
  }

  ghost function ReserveGroups(geo: Geometry, used: set<nat>, m: OwnerMove): set<nat>
    requires GeometryOk(geo)
  {
    if Full(used, m.destination, m.count) then {} else Touched(geo, m.destination, m.count)
  }

  ghost function ReleaseGroups(geo: Geometry, used: set<nat>, m: OwnerMove): set<nat>
    requires GeometryOk(geo)
  {
    if Clear(used, m.source, m.count) then {} else Touched(geo, m.source, m.count)
  }

  /** The groups whose bitmap the stages still to do will change. */
  ghost function MoveGroups(geo: Geometry, used: set<nat>, m: OwnerMove): set<nat>
    requires GeometryOk(geo)
  {
    ReserveGroups(geo, used, m) + ReleaseGroups(geo, used, m)
  }

  lemma SameRenewed(geo: Geometry, a: Disk, b: Disk)
    requires GeometryOk(geo) && a.used == b.used && a.groups == b.groups
    ensures Renewed(geo, a, b, {})
  {
    hide Groups, GroupFree, GroupBits;
  }

  /** Reserving leaves the source range as it was, and the records of the stages come one after another. */
  lemma StagesLeft(used: set<nat>, m: OwnerMove, switch: bool)
    requires Range(m.source, m.count) !! Range(m.destination, m.count) && m.count > 0
    ensures var grown := used + Range(m.destination, m.count);
      && (Full(used, m.destination, m.count) ==> grown == used)
      && Full(grown, m.destination, m.count)
      && (Full(grown, m.source, m.count) <==> Full(used, m.source, m.count))
      && (Clear(grown, m.source, m.count) <==> Clear(used, m.source, m.count))
    ensures !(Full(used, m.source, m.count) && Clear(used, m.source, m.count))
    ensures var release := !Clear(used, m.source, m.count);
      var reserve := !Full(used, m.destination, m.count);
      Emitted(m, reserve, switch, release) == (if reserve then [MoveRecord(J.DestinationReserved, m)] else [])
        + (if switch then [MoveRecord(J.OwnerSwitched, m)] else []) + Emitted(m, false, false, release)
  {
    assert InRange(m.source, m.source, m.count);
    assert m.source in Range(m.source, m.count);
  }

  /**
   One iteration of the commit loop. Starting from whatever stage an earlier run left, it ends with
   the owner at its destination, the destination allocated and the source free; a partly changed
   range is refused before anything is written for the move.
   */
  method CommitMove(dev: FsDevice, log: Log, geo: Geometry, m: OwnerMove, crc: seq<Block> -> nat, sum: nat,
                    ghost p: Plan, ghost rho: Moves, ghost i: nat, ghost sums: seq<nat>)
    returns (r: MoveResult)
    requires Rest(dev, p, geo, rho) && Trusted(p, crc, sums)
    requires i < |p.moves| && p.moves[i] == m && sums[i] == sum
    modifies dev, log
    ensures old(log.entries) <= log.entries
    ensures Guards(p, geo, dev.trace) && Failing(dev.failed, log.failed, old(dev.failed), old(log.failed), r == Failed)
    ensures Backed(old(log.entries), log.entries, p, dev.durable, m)
    ensures r == Done ==> Rest(dev, p, geo, rho[m.source := m.destination])
    ensures r == Done ==> dev.view.used == After(old(dev.view).used, m) && dev.view.super == old(dev.view).super
    ensures r == Done ==> Renewed(geo, old(dev.view), dev.view, MoveGroups(geo, old(dev.view).used, m))
    ensures r == Done ==> log.entries == old(log.entries) + StageRecords(old(dev.view).used, m, m.source in rho)
    ensures r.Refused? && r.why != Stale && r.why != Unsealed ==>
      dev.view == old(dev.view) && dev.trace == old(dev.trace) && log.entries == old(log.entries)
    ensures r == Done ==> Settled(old(dev.view).used, m, m.source in rho) && (m.source !in rho ==> !StaleCopy(old(dev.view).fs, m, crc, sum))
    ensures r == Refused(Inconsistent) ==> !LogicallyApart(p.fs0)
    ensures r.Refused? && (r.why == DestinationPartial || r.why == SourcePartial) ==> !Settled(old(dev.view).used, m, m.source in rho)
    ensures r == Refused(Unsealed) ==> !(MoveGroups(geo, old(dev.view).used, m) <= SealedGroups(geo, old(dev.view)))
    ensures r == Refused(Stale) ==> m.source !in rho && StaleCopy(old(dev.view).fs, m, crc, sum)
  {
    hide Safe, Undamaged, Guarded, Guards, LogicallyApart, Trusted, Lookup, Touched, SealedGroups, GoodGroups, MoveRecord, OwnerFound, Full, Clear, Emitted, Backed, SwitchedOn;
    ghost var d := dev.view;
    ghost var rho' := rho[m.source := m.destination];
    MoveStatus(p, rho, d.fs, d.used, i);
    FoundStatus(p, rho, d.fs, d.used, i);
    StagesLeft(d.used, m, m.source !in rho);
    NothingBacked(log.entries, p, dev.durable, m);
    var f := FindOwner(dev.view.fs, m);
    if f.NotFound? || (f.block != m.source && f.block != m.destination) { return Refused(Inconsistent); }
    var atSource := f.block == m.source;
    if atSource && !Full(dev.view.used, m.source, m.count) { return Refused(Inconsistent); }
    if !atSource && !Full(dev.view.used, m.destination, m.count) { return Refused(Inconsistent); }
    var reserve := !Full(dev.view.used, m.destination, m.count);
    if reserve {
      if !Clear(dev.view.used, m.destination, m.count) { return Refused(DestinationPartial); }
      r := ReserveStage(dev, log, geo, m, p, rho, i);
      if r != Done { return; }
    } else {
      SameRenewed(geo, d, dev.view);
    }
    ghost var reserved := log.entries;
    ghost var first := if reserve then [MoveRecord(J.DestinationReserved, m)] else [];
    assert reserved == old(log.entries) + first + [];
    if atSource {
      r := SwitchStage(dev, log, geo, m, crc, sum, p, rho, i, sums);
      if r != Done {
        BackedFront(old(log.entries), log.entries, p, dev.durable, m, reserve, false);
        return;
      }
    }
    assert log.entries == old(log.entries) + first + (if atSource then [MoveRecord(J.OwnerSwitched, m)] else []);
    r := FinishMove(dev, log, geo, m, p, rho', i);
    BackedFront(old(log.entries), log.entries, p, dev.durable, m, reserve, atSource);
  }

  /** The end of an iteration: release the source unless that is done, and record the committed move. */
  method FinishMove(dev: FsDevice, log: Log, geo: Geometry, m: OwnerMove, ghost p: Plan, ghost rho: Moves, ghost i: nat)
    returns (r: MoveResult)
    requires Rest(dev, p, geo, rho) && i < |p.moves| && p.moves[i] == m && m.source in rho
    modifies dev, log
    ensures old(log.entries) <= log.entries
    ensures Guards(p, geo, dev.trace) && Failing(dev.failed, log.failed, old(dev.failed), old(log.failed), r == Failed)
    ensures Backed(old(log.entries), log.entries, p, dev.durable, m) && SwitchedOn(p, dev.durable, m)
    ensures Full(old(dev.view).used, m.destination, m.count) ==> Full(dev.durable.used, m.destination, m.count)
    ensures r == Done ==> Rest(dev, p, geo, rho)
    ensures r == Done ==> Full(old(dev.view).used, m.source, m.count) || Clear(old(dev.view).used, m.source, m.count)
    ensures r == Done ==> dev.view.used == old(dev.view).used - Range(m.source, m.count) && dev.view.super == old(dev.view).super
    ensures r == Done ==> Renewed(geo, old(dev.view), dev.view, ReleaseGroups(geo, old(dev.view).used, m))
    ensures r == Done ==> log.entries == old(log.entries) + Emitted(m, false, false, !Clear(old(dev.view).used, m.source, m.count))
    ensures r.Refused? ==> r.why == SourcePartial || r.why == Unsealed
    ensures r == Refused(SourcePartial) ==> dev.view == old(dev.view) && dev.trace == old(dev.trace) && log.entries == old(log.entries)
    ensures r == Refused(SourcePartial) ==> !Full(dev.view.used, m.source, m.count) && !Clear(dev.view.used, m.source, m.count)
    ensures r == Refused(Unsealed) ==> !(ReleaseGroups(geo, old(dev.view).used, m) <= SealedGroups(geo, old(dev.view)))
  {
    hide Safe, Undamaged, Guarded, Touched, SealedGroups, GoodGroups, MoveRecord;
    RecordCarries(J.SourceReleased, m);
    RecordCarries(J.MetadataCommitted, m);
    var release := !Clear(dev.view.used, m.source, m.count);
    if release {
      if !Full(dev.view.used, m.source, m.count) { return Refused(SourcePartial); }
      r := ReleaseStage(dev, log, geo, m, p, rho, i);
      if r != Done { return; }
    } else {
      SameRenewed(geo, dev.view, dev.view);
      assert dev.view.used - Range(m.source, m.count) == dev.view.used;
    }
    var ok := log.Append(MoveRecord(J.MetadataCommitted, m));
    if !ok { return Failed; }
    r := Done;
  }

  /** What the look-up says about one move. */
  lemma FoundStatus(p: Plan, rho: Moves, fs: Fs, used: set<nat>, i: nat)
    requires Safe(p, rho, fs, used) && Undamaged(p, rho, fs) && i < |p.moves|
    ensures var m, f := p.moves[i], Lookup(fs, p.moves[i]);
      && (f.Found? && f.block == m.source ==> m.source !in rho)
      && (f.Found? && f.block == m.destination ==> m.source in rho)
      && (LogicallyApart(p.fs0) ==> f.Found? && (f.block == m.source || f.block == m.destination))
  {
    hide Safe, Undamaged, LogicallyApart, Lookup;
    SafePlanned(p, rho, fs, used);
    MoveStatus(p, rho, fs, used, i);
    LookupSound(p, rho, fs, used, i);
    if LogicallyApart(p.fs0) { LookupFinds(p, rho, fs, used, i); }
  }

  /** What a safe disk says about one move. */
  lemma MoveStatus(p: Plan, rho: Moves, fs: Fs, used: set<nat>, i: nat)
    requires Safe(p, rho, fs, used) && i < |p.moves|
    ensures var m := p.moves[i];
      && m.source != m.destination && m.count > 0
      && Range(m.source, m.count) !! Range(m.destination, m.count)
      && Moved(rho, m.source) == (if m.source in rho then m.destination else m.source)
      && (m.source !in rho ==> Full(used, m.source, m.count))
      && (m.source in rho ==> Full(used, m.destination, m.count) && rho[m.source := m.destination] == rho)
  {
    hide Holds, Kept, StagedIntact, InMoves, IsOwner, InTree, Planned, Partial;
    MoveFacts(p, i);
    DestinationInside(p, rho, fs, used, i);
    PresentBlock(p, rho, i);
    FreeIsApart(p, i, p.owners[i]);
    assert Range(Moved(rho, Start(p.owners[i])), Len(p.owners[i])) <= used;
  }

  // ---------- order of the moves ----------

  /** Data extents before tree blocks, tree blocks from the leaves up, data by transaction. */
  predicate Before(a: OwnerMove, b: OwnerMove) {
    if a.kind != b.kind then a.kind == DataExtent
    else if a.kind == TreeBlock then a.depth < b.depth
    else a.transaction < b.transaction
  }

  ghost predicate IsOrder(n: nat, order: seq<nat>) {
    && |order| == n
    && (forall k :: 0 <= k < n ==> order[k] < n)
    && (forall j, k :: 0 <= j < k < n ==> order[j] != order[k])
    && (forall i :: 0 <= i < n ==> i in order)
  }

  ghost predicate Ordered(moves: seq<OwnerMove>, order: seq<nat>) {
    forall j, k :: 0 <= j < k < |order| && order[j] < |moves| && order[k] < |moves| ==> !Before(moves[order[k]], moves[order[j]])
  }

  /** Data extents come first, in the order of their transactions; then tree blocks, leaves before the nodes above them. */
  ghost predicate LeavesUp(moves: seq<OwnerMove>, order: seq<nat>) {
    forall j, k :: 0 <= j < k < |order| && order[j] < |moves| && order[k] < |moves| ==> Precedes(moves[order[j]], moves[order[k]])
  }

  predicate Precedes(a: OwnerMove, b: OwnerMove) {
    || (a.kind == DataExtent && b.kind == TreeBlock)
    || (a.kind == DataExtent && b.kind == DataExtent && a.transaction <= b.transaction)
    || (a.kind == TreeBlock && b.kind == TreeBlock && a.depth <= b.depth)
  }

  lemma OrderedLeavesUp(moves: seq<OwnerMove>, order: seq<nat>)
    requires Ordered(moves, order)
    ensures LeavesUp(moves, order)
  {
    forall j, k | 0 <= j < k < |order| && order[j] < |moves| && order[k] < |moves| ensures Precedes(moves[order[j]], moves[order[k]]) {
      assert !Before(moves[order[k]], moves[order[j]]);
    }
  }

  /** stable_sort of the moves, as positions. */
  method SortMoves(moves: seq<OwnerMove>) returns (order: seq<nat>)
    ensures IsOrder(|moves|, order) && Ordered(moves, order) && LeavesUp(moves, order)
  {
    order := [];
    for i := 0 to |moves|
      invariant IsOrder(i, order) && Ordered(moves, order)
    {
      var pos: nat := |order|;
      while pos > 0 && Before(moves[i], moves[order[pos - 1]])
        invariant pos <= |order|
        invariant forall k :: pos <= k < |order| ==> Before(moves[i], moves[order[k]])
      {
        pos := pos - 1;
      }
      ghost var before := order;
      order := order[..pos] + [i] + order[pos..];
      InsertIsOrder(before, i, pos);
      InsertKeepsOrder(moves, before, i, pos);
    }
    OrderedLeavesUp(moves, order);
  }

  lemma InsertIsOrder(order: seq<nat>, i: nat, pos: nat)
    requires pos <= |order| && IsOrder(i, order)
    ensures IsOrder(i + 1, order[..pos] + [i] + order[pos..])
  {
    var r := order[..pos] + [i] + order[pos..];
    forall j: nat | j < i + 1 ensures j in r {
      if j < i {
        assert j in order;
        var k :| 0 <= k < |order| && order[k] == j;
        assert r[if k < pos then k else k + 1] == j;
      } else {
        assert r[pos] == i;
      }
    }
  }

  lemma InsertKeepsOrder(moves: seq<OwnerMove>, order: seq<nat>, i: nat, pos: nat)
    requires i < |moves| && pos <= |order| && IsOrder(i, order) && Ordered(moves, order)
    requires forall k :: pos <= k < |order| ==> Before(moves[i], moves[order[k]])
    requires pos > 0 ==> !Before(moves[i], moves[order[pos - 1]])
    ensures Ordered(moves, order[..pos] + [i] + order[pos..])
  {
    var r := order[..pos] + [i] + order[pos..];
    forall j | 0 <= j < pos ensures !Before(moves[i], moves[order[j]]) {
      if j < pos - 1 { assert !Before(moves[order[pos - 1]], moves[order[j]]); }
    }
    hide Before;
    forall j, k | 0 <= j < k < |r| && r[j] < |moves| && r[k] < |moves| ensures !Before(moves[r[k]], moves[r[j]]) {
      if k == pos {
        assert r[j] == order[j];
      } else if j == pos {
        assert r[k] == order[k - 1];
        BeforeAsymmetric(moves[i], moves[r[k]]);
      } else {
        assert r[j] == order[if j < pos then j else j - 1] && r[k] == order[if k < pos then k else k - 1];
      }
    }
  }

  lemma BeforeAsymmetric(a: OwnerMove, b: OwnerMove)
    requires Before(a, b)
    ensures !Before(b, a)
  {
  }

  // ---------- the whole commit ----------

  ghost predicate InSource(p: Plan, b: nat) {
    exists i :: 0 <= i < |p.moves| && InRange(b, p.moves[i].source, p.moves[i].count)
  }

  ghost predicate InDestination(p: Plan, b: nat) {
    exists i :: 0 <= i < |p.moves| && InRange(b, p.moves[i].destination, p.moves[i].count)
  }

  /** The allocation a finished relocation leaves: every destination taken, every source free. */
  ghost predicate Relocated(p: Plan, used: set<nat>) {
    forall b :: b in used <==> InDestination(p, b) || (b in p.allocated0 && !InSource(p, b))
  }

  ghost predicate MoveDone(p: Plan, rho: Moves, used: set<nat>, i: nat)
    requires i < |p.moves|
  {
    && p.moves[i].source in rho
    && Full(used, p.moves[i].destination, p.moves[i].count) && Clear(used, p.moves[i].source, p.moves[i].count)
  }

  ghost predicate Untouched(p: Plan, rho0: Moves, used0: set<nat>, rho: Moves, used: set<nat>, i: nat)
    requires i < |p.moves|
  {
    var m := p.moves[i];
    && (m.source in rho <==> m.source in rho0)
    && (forall b :: InRange(b, m.source, m.count) || InRange(b, m.destination, m.count) ==> (b in used <==> b in used0))
  }

  /** Ranges of different moves do not meet. */
  lemma MovesApart(p: Plan, i: nat, j: nat)
    requires Planned(p) && i < |p.moves| && j < |p.moves|
    ensures Apart(p.moves[i].source, p.moves[i].count, p.moves[j].destination, p.moves[j].count)
    ensures i != j ==> p.moves[i].source != p.moves[j].source
    ensures i != j ==> Apart(p.moves[i].source, p.moves[i].count, p.moves[j].source, p.moves[j].count)
    ensures i != j ==> Apart(p.moves[i].destination, p.moves[i].count, p.moves[j].destination, p.moves[j].count)
  {
    hide IsOwner;
    MoveFacts(p, i);
    MoveFacts(p, j);
    FreeIsApart(p, j, p.owners[i]);
    OwnerFacts(p.fs0, p.owners[i]);
    OwnerFacts(p.fs0, p.owners[j]);
    if i != j {
      OwnersApart(p, p.owners[i], p.owners[j]);
    }
  }

  lemma DoneStaysDone(p: Plan, rho: Moves, used: set<nat>, i: nat, j: nat)
    requires Planned(p) && i < |p.moves| && j < |p.moves| && i != j && MoveDone(p, rho, used, i)
    ensures MoveDone(p, rho[p.moves[j].source := p.moves[j].destination], After(used, p.moves[j]), i)
  {
    hide Planned;
    MovesApart(p, i, j);
    MovesApart(p, j, i);
  }

  lemma UntouchedStays(p: Plan, rho0: Moves, used0: set<nat>, rho: Moves, used: set<nat>, i: nat, j: nat)
    requires Planned(p) && i < |p.moves| && j < |p.moves| && i != j && Untouched(p, rho0, used0, rho, used, i)
    ensures Untouched(p, rho0, used0, rho[p.moves[j].source := p.moves[j].destination], After(used, p.moves[j]), i)
  {
    hide Planned;
    MovesApart(p, i, j);
    MovesApart(p, j, i);
  }

  lemma UntouchedStatus(p: Plan, rho0: Moves, used0: set<nat>, rho: Moves, used: set<nat>, i: nat)
    requires i < |p.moves| && Untouched(p, rho0, used0, rho, used, i)
    ensures var m := p.moves[i];
      && (Settled(used, m, m.source in rho) <==> Settled(used0, m, m.source in rho0))
      && StageRecords(used, m, m.source in rho) == StageRecords(used0, m, m.source in rho0)
      && (Full(used, m.destination, m.count) <==> Full(used0, m.destination, m.count))
      && (Clear(used, m.source, m.count) <==> Clear(used0, m.source, m.count))
  {
    var m := p.moves[i];
    assert Full(used, m.source, m.count) == Full(used0, m.source, m.count);
    assert Full(used, m.destination, m.count) == Full(used0, m.destination, m.count);
    assert Clear(used, m.source, m.count) == Clear(used0, m.source, m.count);
    assert Clear(used, m.destination, m.count) == Clear(used0, m.destination, m.count);
  }

  lemma AllDone(p: Plan, rho: Moves, fs: Fs, used: set<nat>)
    requires Safe(p, rho, fs, used)
    requires forall i :: 0 <= i < |p.moves| ==> MoveDone(p, rho, used, i)
    ensures Relocated(p, used)
  {
    hide Planned, Partial, InTree, IsOwner, Holds, Kept, StagedIntact;
    forall b ensures b in used <==> InDestination(p, b) || (b in p.allocated0 && !InSource(p, b)) {
      if InDestination(p, b) {
        var i :| 0 <= i < |p.moves| && InRange(b, p.moves[i].destination, p.moves[i].count);
        assert MoveDone(p, rho, used, i);
        assert b in Range(p.moves[i].destination, p.moves[i].count);
      } else if InSource(p, b) {
        var i :| 0 <= i < |p.moves| && InRange(b, p.moves[i].source, p.moves[i].count);
        assert MoveDone(p, rho, used, i);
        assert b in Range(p.moves[i].source, p.moves[i].count);
      } else {
        assert !InMoves(p, b);
      }
    }
  }
}
