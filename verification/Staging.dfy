/**
 The copies stage_relocation makes before anything is committed (src/ext4/relocate.cpp): they write
 planned destinations only, so the filesystem reads the same whatever part of them reaches the disk,
 and they leave exactly what the commit expects.
 */
module Staging {
  import opened ExtentTree
  import opened Relocation
  import opened CommitDisk
  import C = Commit

  predicate InDestinations(moves: seq<OwnerMove>, b: nat) {
    exists i :: 0 <= i < |moves| && InRange(b, moves[i].destination, moves[i].count)
  }

  /** The two filesystems differ at most inside planned destinations. */
  ghost predicate OnlyDestinations(fs0: Fs, fs: Fs, moves: seq<OwnerMove>) {
    && fs.blocksCount == fs0.blocksCount && fs.roots == fs0.roots
    && forall b: nat :: !InDestinations(moves, b) ==> BlockAt(fs, b) == BlockAt(fs0, b)
  }

  // ---------- nobody sees staging ----------

  lemma OwnedOutside(p: Plan, w: Owner, b: nat)
    requires Planned(p) && IsOwner(p.fs0, w) && InRange(b, Start(w), Len(w))
    ensures !InDestinations(p.moves, b)
  {
    hide IsOwner, Planned;
    if i: nat :| i < |p.moves| && InRange(b, p.moves[i].destination, p.moves[i].count) {
      FreeIsApart(p, i, w);
    }
  }

  lemma NodeOutside(p: Plan, fs: Fs, ino: nat, l: Loc)
    requires Planned(p) && OnlyDestinations(p.fs0, fs, p.moves) && InTree(p.fs0, ino, l)
    ensures At(fs, l) == At(p.fs0, l)
  {
    hide IsOwner, ScanInode, Planned;
    if l.Blk? {
      var w := BlockIsOwned(p.fs0, ino, l.block);
      OwnerFacts(p.fs0, w);
      OwnedOutside(p, w, l.block);
    }
  }

  /** Every inode scans to the same tree. */
  lemma ScanUnchanged(p: Plan, fs: Fs, ino: nat)
    requires Planned(p) && OnlyDestinations(p.fs0, fs, p.moves) && ino in p.fs0.roots
    ensures ScanInode(fs, ino) == ScanInode(p.fs0, ino)
  {
    hide ScanInode, Fits, Holds, Planned;
    var r := ScanInode(p.fs0, ino);
    PlannedScans(p, ino);
    PartialNothing(p);
    ScanFits(p, map[], ino);
    forall l | InTree(p.fs0, ino, l) ensures Holds(p.fs0, map[], fs, l) && At(fs, l) == At(p.fs0, l) && At(p.fs0, l).Tree? {
      NodeOutside(p, fs, ino, l);
      HoldsInitially(p.fs0, ino, l);
      HoldsSame(p.fs0, fs, l);
      NodeIsTree(p.fs0, ino, l);
    }
    assert InTree(p.fs0, ino, Root(ino));
    forall b | b in r.visited ensures Holds(p.fs0, map[], fs, Blk(b)) && BlockAt(fs, b) != Damaged {
      assert InTree(p.fs0, ino, Blk(b));
      assert At(fs, Blk(b)) == At(p.fs0, Blk(b));
    }
    ScanInodeMoved(p.fs0, fs, map[], ino);
    MovedScanNothing(r);
  }

  lemma PlannedScans(p: Plan, ino: nat)
    requires Planned(p) && ino in p.fs0.roots
    ensures ScanInode(p.fs0, ino).Scan?
  {
  }

  lemma PartialNothing(p: Plan)
    ensures Partial(p, map[])
  {
  }

  lemma HoldsSame(fs0: Fs, fs: Fs, l: Loc)
    requires Holds(fs0, map[], fs0, l) && At(fs, l) == At(fs0, l)
    ensures Holds(fs0, map[], fs, l)
  {
    assert MovedLoc(map[], l) == l;
  }

  lemma MovedScanNothing(s: Scan)
    ensures MovedScan(map[], s) == s
  {
    if s.Scan? {
      var r := MovedScan(map[], s);
      assert r.extents == s.extents;
      assert r.trees == s.trees;
      assert r.visited == s.visited;
    }
  }

  lemma OwnersUnchanged(p: Plan, fs: Fs, w: Owner)
    requires Planned(p) && OnlyDestinations(p.fs0, fs, p.moves)
    ensures IsOwner(fs, w) <==> IsOwner(p.fs0, w)
  {
    hide ScanInode, Planned;
    if w.ino in p.fs0.roots { ScanUnchanged(p, fs, w.ino); }
  }

  /**
   Whatever part of staging has reached the disk, every logical block of every inode reads the same,
   and the plan still holds of the filesystem.
   */
  lemma StagingInvisible(p: Plan, fs: Fs)
    requires Planned(p) && OnlyDestinations(p.fs0, fs, p.moves)
    ensures Planned(p.(fs0 := fs))
    ensures forall ino, logical :: ino in p.fs0.roots ==> Read(fs, ino, logical) == Read(p.fs0, ino, logical)
  {
    hide IsOwner, ScanInode, Read;
    forall w ensures IsOwner(fs, w) <==> IsOwner(p.fs0, w) { OwnersUnchanged(p, fs, w); }
    forall ino | ino in fs.roots ensures ScanInode(fs, ino).Scan? { ScanUnchanged(p, fs, ino); }
    forall ino, logical | ino in p.fs0.roots ensures Read(fs, ino, logical) == Read(p.fs0, ino, logical) {
      ReadUnchanged(p, fs, ino, logical);
    }
  }

  lemma ReadUnchanged(p: Plan, fs: Fs, ino: nat, logical: nat)
    requires Planned(p) && OnlyDestinations(p.fs0, fs, p.moves) && ino in p.fs0.roots
    ensures Read(fs, ino, logical) == Read(p.fs0, ino, logical)
  {
    hide ScanInode, Planned, Kept;
    var r := ScanInode(p.fs0, ino);
    PlannedScans(p, ino);
    ScanUnchanged(p, fs, ino);
    forall o | o in r.extents ensures Kept(p.fs0, map[], fs, o.extent) {
      var w := DataOwner(ino, o);
      assert IsOwner(p.fs0, w);
      KeptInitially(p.fs0, o.extent);
      ExtentOutside(p, fs, w);
    }
    ReadMovedScan(p.fs0, fs, map[], r, logical);
    MovedScanNothing(r);
  }

  lemma ExtentOutside(p: Plan, fs: Fs, w: Owner)
    requires Planned(p) && OnlyDestinations(p.fs0, fs, p.moves) && IsOwner(p.fs0, w) && w.DataOwner?
    ensures Kept(p.fs0, map[], fs, w.o.extent)
  {
    hide IsOwner, Planned, OnlyDestinations, BlockAt;
    var e := w.o.extent;
    forall q | e.physical <= q < e.physical + e.length
      ensures BlockAt(fs, Moved(map[], e.physical) + (q - e.physical)) == BlockAt(p.fs0, q)
    {
      BlockOutside(p, fs, w, q);
    }
  }

  lemma BlockOutside(p: Plan, fs: Fs, w: Owner, q: nat)
    requires Planned(p) && OnlyDestinations(p.fs0, fs, p.moves) && IsOwner(p.fs0, w) && w.DataOwner?
    requires w.o.extent.physical <= q < w.o.extent.physical + w.o.extent.length
    ensures BlockAt(fs, q) == BlockAt(p.fs0, q)
  {
    hide IsOwner, Planned;
    OwnedOutside(p, w, q);
  }

  // ---------- crashes while staging ----------

  /** Only destinations differ from the start, and no allocation bit does. */
  ghost predicate Unstaged(p: Plan, d: Disk) {
    OnlyDestinations(p.fs0, d.fs, p.moves) && d.used == p.allocated0
  }

  /** Whatever a crash leaves, only destinations differ from the start. */
  ghost predicate StageGuarded(p: Plan, s: (Disk, Disk)) {
    Unstaged(p, s.1) && forall img :: CrashDisk(s.0, s.1, img) ==> Unstaged(p, img)
  }

  ghost predicate StageGuards(p: Plan, trace: seq<(Disk, Disk)>) {
    forall k :: 0 <= k < |trace| ==> StageGuarded(p, trace[k])
  }

  lemma StageStepGuarded(p: Plan, d: Disk, v: Disk)
    requires Unstaged(p, d) && Unstaged(p, v)
    ensures StageGuarded(p, (d, v))
  {
    forall img | CrashDisk(d, v, img) ensures Unstaged(p, img) {
      forall ino | ino in d.fs.roots ensures img.fs.roots[ino] == d.fs.roots[ino] {
        assert SurvivesBlock(At(d.fs, Root(ino)), At(v.fs, Root(ino)), At(img.fs, Root(ino)));
      }
      assert img.fs.roots == d.fs.roots;
      forall b: nat | !InDestinations(p.moves, b) ensures BlockAt(img.fs, b) == BlockAt(p.fs0, b) {
        assert SurvivesBlock(At(d.fs, Blk(b)), At(v.fs, Blk(b)), At(img.fs, Blk(b)));
      }
    }
  }

  /** So a crash anywhere in staging leaves every file reading as before and the plan intact. */
  lemma StagingCrashReads(p: Plan, s: (Disk, Disk), img: Disk)
    requires Planned(p) && StageGuarded(p, s) && CrashDisk(s.0, s.1, img)
    ensures Planned(p.(fs0 := img.fs)) && img.used == p.allocated0
    ensures forall ino, logical :: ino in p.fs0.roots ==> Read(img.fs, ino, logical) == Read(p.fs0, ino, logical)
  {
    hide Planned, Read, CrashDisk, OnlyDestinations;
    StagingInvisible(p, img.fs);
  }

  // ---------- the copies ----------

  /** The first `n` blocks of the move are copied and nothing else has changed. */
  ghost predicate CopiedUpTo(before: Fs, fs: Fs, m: OwnerMove, n: nat) {
    && fs.blocksCount == before.blocksCount && fs.roots == before.roots
    && (forall b: nat :: InRange(b, m.destination, n) ==> BlockAt(fs, b) == BlockAt(before, m.source + (b - m.destination)))
    && (forall b: nat :: !InRange(b, m.destination, n) ==> BlockAt(fs, b) == BlockAt(before, b))
  }

  lemma CopyStep(before: Fs, fs: Fs, m: OwnerMove, i: nat)
    requires CopiedUpTo(before, fs, m, i) && i < m.count && Apart(m.source, m.count, m.destination, m.count)
    ensures BlockAt(fs, m.source + i) == BlockAt(before, m.source + i)
    ensures CopiedUpTo(before, SetAt(fs, Blk(m.destination + i), BlockAt(fs, m.source + i)), m, i + 1)
  {
    var after := SetAt(fs, Blk(m.destination + i), BlockAt(fs, m.source + i));
    assert !InRange(m.source + i, m.destination, i);
    forall b: nat | b != m.destination + i ensures BlockAt(after, b) == BlockAt(fs, b) && (InRange(b, m.destination, i + 1) <==> InRange(b, m.destination, i)) {
    }
  }

  lemma CopyStaysInside(p: Plan, before: Fs, fs: Fs, k: nat, n: nat)
    requires OnlyDestinations(p.fs0, before, p.moves) && k < |p.moves| && n <= p.moves[k].count && CopiedUpTo(before, fs, p.moves[k], n)
    ensures OnlyDestinations(p.fs0, fs, p.moves)
  {
    forall b: nat | !InDestinations(p.moves, b) ensures BlockAt(fs, b) == BlockAt(p.fs0, b) {
      assert !InRange(b, p.moves[k].destination, p.moves[k].count);
    }
  }

  datatype CopyResult = Copied(sum: nat) | CopyFailed | CopyCancelled

  /**
   copy_one: returns the checksum of the source as read; an unwritten extent is not copied. It may be
   cancelled before any piece. Nothing is flushed here, and every crash on the way leaves only
   destinations changed.
   */
  method CopyOne(dev: FsDevice, m: OwnerMove, crc: seq<Block> -> nat, ghost p: Plan, ghost k: nat) returns (r: CopyResult)
    requires k < |p.moves| && p.moves[k] == m && Apart(m.source, m.count, m.destination, m.count)
    requires Unstaged(p, dev.durable) && Unstaged(p, dev.view) && StageGuards(p, dev.trace)
    modifies dev
    ensures dev.durable == old(dev.durable) && dev.view == old(dev.view).(fs := dev.view.fs) && Unstaged(p, dev.view)
    ensures StageGuards(p, dev.trace) && dev.failed == (old(dev.failed) || r == CopyFailed)
    ensures exists n :: 0 <= n <= m.count && CopiedUpTo(old(dev.view).fs, dev.view.fs, m, n)
    ensures m.unwritten ==> r.Copied?
    ensures r.Copied? ==> CopiedUpTo(old(dev.view).fs, dev.view.fs, m, if m.unwritten then 0 else m.count)
    ensures r.Copied? ==> r.sum == if m.unwritten then 0 else crc(C.Contents(old(dev.view).fs, m.source, m.count))
  {
    hide StageGuarded, OnlyDestinations;
    ghost var before := dev.view.fs;
    assert CopiedUpTo(before, before, m, 0);
    if m.unwritten { return Copied(0); }
    var bytes: seq<Block> := [];
    for i := 0 to m.count
      invariant CopiedUpTo(before, dev.view.fs, m, i) && dev.view == old(dev.view).(fs := dev.view.fs)
      invariant bytes == C.Contents(before, m.source, i) && dev.failed == old(dev.failed)
      invariant dev.durable == old(dev.durable) && StageGuards(p, dev.trace)
    {
      CopyStaysInside(p, before, dev.view.fs, k, i);
      var cancel := *;
      if cancel { return CopyCancelled; }
      CopyStep(before, dev.view.fs, m, i);
      CopyStaysInside(p, before, SetAt(dev.view.fs, Blk(m.destination + i), BlockAt(dev.view.fs, m.source + i)), k, i + 1);
      var v := BlockAt(dev.view.fs, m.source + i);
      hide CopiedUpTo, SetAt;
      bytes := bytes + [v];
      var ok := dev.WriteNode(Blk(m.destination + i), v);
      StageStepGuarded(p, dev.durable, dev.view);
      if !ok { return CopyFailed; }
    }
    CopyStaysInside(p, before, dev.view.fs, k, m.count);
    r := Copied(crc(bytes));
  }

  /** verify_one: the checksum of the destination as it reads back. */
  method VerifyOne(dev: FsDevice, m: OwnerMove, crc: seq<Block> -> nat) returns (sum: nat)
    ensures sum == if m.unwritten then 0 else crc(C.Contents(dev.view.fs, m.destination, m.count))
  {
    if m.unwritten { return 0; }
    var bytes: seq<Block> := [];
    for i := 0 to m.count
      invariant bytes == C.Contents(dev.view.fs, m.destination, i)
    {
      bytes := bytes + [BlockAt(dev.view.fs, m.destination + i)];
    }
    sum := crc(bytes);
  }

  // ---------- what a copy is worth ----------

  /** The checksum a verified copy of the move must have. */
  ghost function SourceSum(p: Plan, crc: seq<Block> -> nat, m: OwnerMove): nat {
    if m.unwritten then 0 else crc(C.Contents(p.fs0, m.source, m.count))
  }

  /** The destination holds the source's blocks. */
  ghost predicate ExactCopy(p: Plan, fs: Fs, m: OwnerMove) {
    !m.unwritten ==> C.Contents(fs, m.destination, m.count) == C.Contents(p.fs0, m.source, m.count)
  }

  /** The destination has the source's checksum. */
  ghost predicate SumMatches(p: Plan, fs: Fs, crc: seq<Block> -> nat, m: OwnerMove) {
    !m.unwritten ==> crc(C.Contents(fs, m.destination, m.count)) == SourceSum(p, crc, m)
  }

  lemma SourceOutside(p: Plan, fs: Fs, k: nat)
    requires Planned(p) && k < |p.moves| && OnlyDestinations(p.fs0, fs, p.moves)
    ensures forall b: nat :: InRange(b, p.moves[k].source, p.moves[k].count) ==> BlockAt(fs, b) == BlockAt(p.fs0, b)
  {
    hide IsOwner, Planned;
    MoveFacts(p, k);
    forall b: nat | InRange(b, p.moves[k].source, p.moves[k].count) ensures BlockAt(fs, b) == BlockAt(p.fs0, b) {
      OwnedOutside(p, p.owners[k], b);
    }
  }

  lemma SourceContents(p: Plan, fs: Fs, i: nat)
    requires Planned(p) && i < |p.moves| && OnlyDestinations(p.fs0, fs, p.moves)
    ensures C.Contents(fs, p.moves[i].source, p.moves[i].count) == C.Contents(p.fs0, p.moves[i].source, p.moves[i].count)
  {
    hide Planned;
    SourceOutside(p, fs, i);
    var m := p.moves[i];
    var a, b := C.Contents(fs, m.source, m.count), C.Contents(p.fs0, m.source, m.count);
    forall j | 0 <= j < |a| ensures a[j] == b[j] {
      assert InRange(m.source + j, m.source, m.count);
    }
  }

  /** A finished copy is exact, whatever was at the destination before. */
  lemma CopyIsExact(p: Plan, before: Fs, fs: Fs, k: nat)
    requires Planned(p) && k < |p.moves| && OnlyDestinations(p.fs0, before, p.moves)
    requires CopiedUpTo(before, fs, p.moves[k], if p.moves[k].unwritten then 0 else p.moves[k].count)
    ensures ExactCopy(p, fs, p.moves[k])
  {
    hide Planned, OnlyDestinations;
    var m := p.moves[k];
    if !m.unwritten {
      SourceContents(p, before, k);
      var a, b := C.Contents(fs, m.destination, m.count), C.Contents(before, m.source, m.count);
      forall j | 0 <= j < |a| ensures a[j] == b[j] {
        assert InRange(m.destination + j, m.destination, m.count);
      }
    }
  }

  /** Copying one move, in whole or in part, leaves the other destinations alone. */
  lemma OtherCopies(p: Plan, before: Fs, fs: Fs, k: nat, n: nat, i: nat)
    requires Planned(p) && k < |p.moves| && i < |p.moves| && i != k && n <= p.moves[k].count && CopiedUpTo(before, fs, p.moves[k], n)
    ensures C.Contents(fs, p.moves[i].destination, p.moves[i].count) == C.Contents(before, p.moves[i].destination, p.moves[i].count)
  {
    hide Planned;
    C.MovesApart(p, i, k);
    var m := p.moves[i];
    var a, b := C.Contents(fs, m.destination, m.count), C.Contents(before, m.destination, m.count);
    forall j | 0 <= j < |a| ensures a[j] == b[j] {
      assert !InRange(m.destination + j, p.moves[k].destination, n);
    }
  }
}
