/** A small filesystem with a plan that moves a data extent and the leaf block that refers to it. */
module Example {
  import opened ExtentTree
  import opened Relocation
  import opened CommitDisk
  import C = Commit
  import R = CommitRun
  import S = StageRun

  const LEAF := Leaf([Extent(0, 30, 2, false)])
  const POINTERS := [Pointer(0, 20)]
  const FS := Fs(40, map[12 := Tree(Branch(1, POINTERS))], map[20 := Tree(LEAF), 30 := Data(1), 31 := Data(2), 5 := Data(1), 6 := Data(2)])
  const USED: set<nat> := {0, 1, 20, 30, 31}

  const DATA := DataOwner(12, Owned(Extent(0, 30, 2, false), Blk(20), 0))
  const TREE := TreeOwner(12, TreeRef(20, Root(12), 0, 0))

  const PLAN := Plan(FS, USED,
    [OwnerMove(DataExtent, 1, 12, 0, 30, 5, 2, false, 0), OwnerMove(TreeBlock, 2, 12, 0, 20, 7, 1, false, 0)],
    [DATA, TREE])

  lemma SmallScan()
    ensures ScanInode(FS, 12) == Scan([DATA.o], [TREE.t], {20})
  {
    var s := Enter(EMPTY, POINTERS, 0, 1, Root(12));
    assert PointerOk(FS, POINTERS, 0);
    assert BlockAt(FS, 20) == Tree(LEAF);
    assert OwnedOf(LEAF.extents, Blk(20)) == [DATA.o];
    var r := ScanNode(FS, LEAF, 0, Blk(20), s);
    assert r == Scan([DATA.o], [TREE.t], {20});
    PointersStep(FS, POINTERS, 1, Root(12), 0, EMPTY);
    assert ScanPointers(FS, POINTERS, 1, Root(12), 1, r) == r;
  }

  lemma OnlyTwoOwners(w: Owner)
    ensures IsOwner(FS, w) <==> w == DATA || w == TREE
  {
    SmallScan();
    hide ScanInode;
  }

  /** The hypotheses of the commit theorems can be met. */
  lemma SmallPlanIsPlanned()
    ensures Planned(PLAN) && C.LogicallyApart(FS)
  {
    SmallScan();
    hide ScanInode, IsOwner;
    forall v, w | IsOwner(FS, v) && IsOwner(FS, w) && v != w ensures Apart(Start(v), Len(v), Start(w), Len(w)) {
      OnlyTwoOwners(v);
      OnlyTwoOwners(w);
    }
    forall w | IsOwner(FS, w) ensures Range(Start(w), Len(w)) <= USED {
      OnlyTwoOwners(w);
    }
    assert forall ino :: ino in FS.roots ==> ino == 12;
    OnlyTwoOwners(DATA);
    OnlyTwoOwners(TREE);
  }

  // ---------- a clean mark without the final check ----------

  /** One group of forty blocks without checksums. */
  const GEO := Geometry(0, 40, 40, false, (b: set<nat>) => 0)

  /** The staged filesystem, its group in order, its superblock count one too high. */
  const MISCOUNTED := Disk(FS, USED, map[0 := DescOf(GEO, USED, 0)], Super(false, TotalFree(GEO, USED) + 1))

  lemma MiscountedGroups()
    ensures GeometryOk(GEO) && R.StagesSealed(GEO, MISCOUNTED, PLAN.moves) && !R.ComesRight(PLAN, GEO, MISCOUNTED)
  {
    hide GroupFree, GroupBits, TotalFree, R.Renews, C.MoveGroups, C.GoodGroups, C.SealedGroups;
    var counted := MISCOUNTED.(super := Super(false, TotalFree(GEO, USED)));
    assert Groups(GEO) == 1;
    assert GroupOk(GEO, counted, 0);
    R.AgreeingComesRight(PLAN, GEO, counted);
    C.SameRenewed(GEO, counted, MISCOUNTED);
  }

  /** The copies are exact, so any checksums are trusted and none is stale. */
  lemma ExactCopies(crc: seq<Block> -> nat, sums: seq<nat>)
    requires sums == [crc([Data(1), Data(2)]), 0]
    ensures C.Trusted(PLAN, crc, sums) && R.CopiesFresh(PLAN, map[], crc, sums)
  {
    assert C.Contents(FS, 5, 2) == [Data(1), Data(2)] == C.Contents(FS, 30, 2);
  }

  lemma AtStageBoundary()
    ensures R.AllSettled(PLAN, USED, map[])
  {
    assert Range(5, 2) == {5, 6} && Range(7, 1) == {7};
  }

  /** A dirty disk as planned is one the commit may start from. */
  lemma StartsAtRest(dev: FsDevice, p: Plan, geo: Geometry)
    requires Planned(p) && GeometryOk(geo) && geo.blocks == p.fs0.blocksCount && Marked(dev.view, false)
    requires dev.view.fs == p.fs0 && dev.view.used == p.allocated0 && dev.durable == dev.view && dev.trace == [(dev.view, dev.view)]
    ensures R.Resumable(dev, p, geo, map[])
  {
    hide Planned, Safe, Undamaged, Guarded;
    SafeInitially(p);
    S.WholeAtStart(p);
    RestGuarded(p, geo, map[], dev.view);
  }

  /** With the lemmas above, the hypotheses of CommitRun.UncheckedCommit are met. */
  lemma MiscountedAtRest(dev: FsDevice)
    requires dev.durable == dev.view == MISCOUNTED && dev.trace == [(dev.view, dev.view)]
    ensures R.Resumable(dev, PLAN, GEO, map[])
  {
    hide Planned, R.Resumable, DescOf, TotalFree;
    SmallPlanIsPlanned();
    StartsAtRest(dev, PLAN, GEO);
  }
}
