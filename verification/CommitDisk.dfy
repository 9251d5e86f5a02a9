/**
 The device a relocation commit writes to, and the crash states of each of its writes.

 Bitmap bits, extent nodes, group counters and the superblock live on one device. `durable` is what
 the last flush made permanent and `view` is what reads return. A crash keeps or loses each bit on
 its own, and keeps, loses or tears each node written since the flush.
 */
module CommitDisk {
  import opened ExtentTree
  import opened Relocation

  datatype Super = Super(clean: bool, free: nat) | TornSuper

  /** A group descriptor: the free count and the checksum of the bitmap it was last written with. */
  datatype Desc = Desc(free: nat, sum: nat) | TornDesc

  datatype Disk = Disk(fs: Fs, used: set<nat>, groups: map<nat, Desc>, super: Super)

  // ---------- groups ----------

  /**
   Where the groups are and how they are protected: whether descriptors carry a checksum, and the
   checksum of a group's bitmap, which is constant where bitmaps carry none.
   */
  datatype Geometry = Geometry(firstData: nat, perGroup: nat, blocks: nat, descSums: bool, bitmapSum: set<nat> -> nat)

  predicate GeometryOk(geo: Geometry) {
    geo.perGroup > 0 && geo.firstData <= 1 && geo.firstData <= geo.blocks
  }

  function GroupStart(geo: Geometry, g: nat): nat {
    geo.firstData + g * geo.perGroup
  }

  function GroupCount(geo: Geometry, g: nat): nat {
    var start := GroupStart(geo, g);
    if start < geo.blocks then
      if geo.perGroup < geo.blocks - start then geo.perGroup else geo.blocks - start
    else 0
  }

  function Groups(geo: Geometry): nat
    requires GeometryOk(geo)
  {
    var data := geo.blocks - geo.firstData;
    data / geo.perGroup + if data % geo.perGroup != 0 then 1 else 0
  }

  /** The free count a group descriptor should hold. */
  function GroupFree(geo: Geometry, used: set<nat>, g: nat): nat {
    |Range(GroupStart(geo, g), GroupCount(geo, g)) - used|
  }

  function GroupBits(geo: Geometry, used: set<nat>, g: nat): set<nat> {
    Range(GroupStart(geo, g), GroupCount(geo, g)) * used
  }

  function DescAt(d: Disk, g: nat): Desc {
    if g in d.groups then d.groups[g] else TornDesc
  }

  /** What rewrite_group_bitmap checks before it changes a group. */
  predicate Sealed(geo: Geometry, d: Disk, g: nat) {
    match DescAt(d, g)
    case TornDesc => !geo.descSums
    case Desc(_, sum) => sum == geo.bitmapSum(GroupBits(geo, d.used, g))
  }

  /** The descriptor that belongs to the bitmap. */
  function DescOf(geo: Geometry, used: set<nat>, g: nat): Desc {
    Desc(GroupFree(geo, used, g), geo.bitmapSum(GroupBits(geo, used, g)))
  }

  /** The descriptor agrees with the bitmap in count and checksum. */
  predicate GroupOk(geo: Geometry, d: Disk, g: nat) {
    DescAt(d, g) == DescOf(geo, d.used, g)
  }

  function TotalFree(geo: Geometry, used: set<nat>): nat
    requires GeometryOk(geo)
  {
    |Range(geo.firstData, geo.blocks - geo.firstData) - used|
  }

  /** What verify_metadata compares: descriptors and the superblock against the bitmaps. */
  predicate CountsAgree(geo: Geometry, d: Disk)
    requires GeometryOk(geo)
  {
    && d.super.Super? && d.super.free == TotalFree(geo, d.used)
    && forall g :: 0 <= g < Groups(geo) ==> GroupOk(geo, d, g)
  }

  // ---------- crashes ----------

  ghost predicate SurvivesBlock(old_: Block, new_: Block, b: Block) {
    b == old_ || b == new_ || (old_ != new_ && b == Damaged)
  }

  ghost predicate SurvivesDesc(old_: Desc, new_: Desc, b: Desc) {
    b == old_ || b == new_ || (old_ != new_ && b == TornDesc)
  }

  ghost predicate CrashDisk(d: Disk, v: Disk, img: Disk) {
    && img.fs.blocksCount == d.fs.blocksCount && img.fs.roots.Keys == d.fs.roots.Keys
    && (forall l :: SurvivesBlock(At(d.fs, l), At(v.fs, l), At(img.fs, l)))
    && d.used * v.used <= img.used <= d.used + v.used
    && (forall g :: SurvivesDesc(DescAt(d, g), DescAt(v, g), DescAt(img, g)))
    && (img.super == d.super || img.super == v.super || (d.super != v.super && img.super == TornSuper))
  }

  ghost predicate SameContent(a: Fs, b: Fs) {
    && a.blocksCount == b.blocksCount && a.roots.Keys == b.roots.Keys
    && forall l :: At(a, l) == At(b, l)
  }

  lemma SafeSameContent(p: Plan, rho: Moves, a: Fs, b: Fs, used: set<nat>)
    requires Safe(p, rho, a, used) && SameContent(a, b)
    ensures Safe(p, rho, b, used)
  {
    hide Planned, Partial, InTree, IsOwner, InMoves;
    forall ino, l | InTree(p.fs0, ino, l) ensures Holds(p.fs0, rho, b, l) {
      assert Holds(p.fs0, rho, a, l);
    }
    forall q: nat ensures BlockAt(a, q) == BlockAt(b, q) {
      assert At(a, Blk(q)) == At(b, Blk(q));
    }
    forall w | IsOwner(p.fs0, w) && w.DataOwner? ensures Kept(p.fs0, rho, b, w.o.extent) {
      assert Kept(p.fs0, rho, a, w.o.extent);
    }
    forall i | 0 <= i < |p.moves| && p.moves[i].source !in rho ensures StagedIntact(p, b, i) {
      assert StagedIntact(p, a, i);
    }
  }

  /** The only tree node that may be torn is the one at `at`. */
  ghost predicate TornOnlyAt(p: Plan, rho: Moves, fs: Fs, at: Loc) {
    forall ino, l :: InTree(p.fs0, ino, l) && At(fs, MovedLoc(rho, l)) == Damaged ==> MovedLoc(rho, l) == at
  }

  /** Some stage of the plan could have left this filesystem, with at most the node at `at` torn. */
  ghost predicate Reached(p: Plan, d: Disk, at: Loc) {
    exists rho :: Safe(p, rho, d.fs, d.used) && TornOnlyAt(p, rho, d.fs, at)
  }

  /** The running program sees some stage of the plan with no node torn. */
  ghost predicate SeenWhole(p: Plan, d: Disk) {
    exists rho :: Safe(p, rho, d.fs, d.used) && Undamaged(p, rho, d.fs)
  }

  /** A disk that some stage of the plan could have left, with honest counters if it claims to be clean. */
  ghost predicate Acceptable(p: Plan, geo: Geometry, d: Disk) {
    && GeometryOk(geo)
    && (exists at :: Reached(p, d, at))
    && (d.super.Super? && d.super.clean ==> CountsAgree(geo, d))
  }

  /**
   The program sees every tree whole, and every crash in this state leaves an acceptable disk on which
   only a node that was being written can be torn.
   */
  ghost predicate Guarded(p: Plan, geo: Geometry, s: (Disk, Disk)) {
    && SeenWhole(p, s.1)
    && forall img :: CrashDisk(s.0, s.1, img) ==> Acceptable(p, geo, img) && TornWhileWritten(s.0, s.1, img)
  }

  /** Whatever is newly damaged was pending. */
  ghost predicate TornWhileWritten(d: Disk, v: Disk, img: Disk) {
    forall l :: At(img.fs, l) == Damaged ==> At(d.fs, l) == Damaged || At(d.fs, l) != At(v.fs, l)
  }

  lemma CrashTears(d: Disk, v: Disk, img: Disk)
    requires CrashDisk(d, v, img)
    ensures TornWhileWritten(d, v, img)
  {
    forall l | At(img.fs, l) == Damaged ensures At(d.fs, l) == Damaged || At(d.fs, l) != At(v.fs, l) {
      assert SurvivesBlock(At(d.fs, l), At(v.fs, l), At(img.fs, l));
    }
  }

  lemma ReachedWhole(p: Plan, rho: Moves, d: Disk, at: Loc)
    requires Safe(p, rho, d.fs, d.used) && Undamaged(p, rho, d.fs)
    ensures Reached(p, d, at) && SeenWhole(p, d)
  {
    hide Safe, InTree;
    assert TornOnlyAt(p, rho, d.fs, at);
  }

  lemma UndamagedSame(p: Plan, rho: Moves, a: Fs, b: Fs)
    requires Undamaged(p, rho, a) && SameContent(a, b)
    ensures Undamaged(p, rho, b)
  {
    hide InTree;
    forall ino, l | InTree(p.fs0, ino, l) ensures At(b, MovedLoc(rho, l)) != Damaged {
      assert At(a, MovedLoc(rho, l)) != Damaged;
    }
  }

  /** An image with the content of a whole safe disk is acceptable if its counters are. */
  lemma AcceptSame(p: Plan, geo: Geometry, rho: Moves, fs: Fs, img: Disk)
    requires GeometryOk(geo) && Safe(p, rho, fs, img.used) && Undamaged(p, rho, fs) && SameContent(fs, img.fs)
    requires img.super.Super? && img.super.clean ==> CountsAgree(geo, img)
    ensures Acceptable(p, geo, img)
  {
    hide Safe, Undamaged, Reached, SeenWhole, CountsAgree;
    SafeSameContent(p, rho, fs, img.fs, img.used);
    UndamagedSame(p, rho, fs, img.fs);
    ReachedWhole(p, rho, img, Root(0));
  }

  ghost predicate Guards(p: Plan, geo: Geometry, trace: seq<(Disk, Disk)>) {
    forall k :: 0 <= k < |trace| ==> Guarded(p, geo, trace[k])
  }

  ghost predicate Marked(d: Disk, clean: bool) {
    d.super.Super? && d.super.clean == clean
  }

  lemma CrashSameContent(d: Disk, v: Disk, img: Disk)
    requires CrashDisk(d, v, img) && v.fs == d.fs
    ensures SameContent(d.fs, img.fs)
  {
    forall l ensures At(d.fs, l) == At(img.fs, l) {
      assert SurvivesBlock(At(d.fs, l), At(v.fs, l), At(img.fs, l));
    }
  }

  /** Only bits or counters differ, and every mixture of the bits is safe. */
  lemma BitsGuarded(p: Plan, geo: Geometry, rho: Moves, d: Disk, v: Disk)
    requires GeometryOk(geo) && v.fs == d.fs && v.super == d.super && Marked(d, false) && Undamaged(p, rho, d.fs)
    requires forall u :: d.used * v.used <= u <= d.used + v.used ==> Safe(p, rho, d.fs, u)
    ensures Guarded(p, geo, (d, v))
  {
    hide Safe, Undamaged, Acceptable, SeenWhole, TornWhileWritten;
    ReachedWhole(p, rho, v, Root(0));
    forall img | CrashDisk(d, v, img) ensures Acceptable(p, geo, img) && TornWhileWritten(d, v, img) {
      CrashSameContent(d, v, img);
      CrashTears(d, v, img);
      AcceptSame(p, geo, rho, d.fs, img);
    }
  }

  /** Exactly one node differs: each of its three fates must be safe. */
  lemma NodeGuarded(p: Plan, geo: Geometry, d: Disk, v: Disk, l: Loc, b: Block, rho: Moves, rho': Moves)
    requires GeometryOk(geo) && Marked(d, false) && (l.Root? ==> l.ino in d.fs.roots)
    requires v == d.(fs := SetAt(d.fs, l, b))
    requires Safe(p, rho, d.fs, d.used) && Undamaged(p, rho, d.fs)
    requires Safe(p, rho', v.fs, d.used) && Undamaged(p, rho', v.fs)
    requires Safe(p, rho, SetAt(d.fs, l, Damaged), d.used)
    ensures Guarded(p, geo, (d, v))
  {
    hide Safe, Undamaged, Acceptable, SeenWhole, TornWhileWritten;
    ReachedWhole(p, rho', v, l);
    forall img | CrashDisk(d, v, img) ensures Acceptable(p, geo, img) && TornWhileWritten(d, v, img) {
      CrashTears(d, v, img);
      NodeFates(p, geo, d, v, l, b, rho, rho', img);
    }
  }

  lemma NodeFates(p: Plan, geo: Geometry, d: Disk, v: Disk, l: Loc, b: Block, rho: Moves, rho': Moves, img: Disk)
    requires GeometryOk(geo) && Marked(d, false) && (l.Root? ==> l.ino in d.fs.roots)
    requires v == d.(fs := SetAt(d.fs, l, b)) && CrashDisk(d, v, img)
    requires Safe(p, rho, d.fs, d.used) && Undamaged(p, rho, d.fs)
    requires Safe(p, rho', v.fs, d.used) && Undamaged(p, rho', v.fs)
    requires Safe(p, rho, SetAt(d.fs, l, Damaged), d.used)
    ensures Acceptable(p, geo, img)
  {
    hide Safe, Undamaged, Reached, CountsAgree;
    assert img.used == d.used;
    assert SurvivesBlock(At(d.fs, l), At(v.fs, l), At(img.fs, l));
    forall k | k != l ensures At(img.fs, k) == At(d.fs, k) {
      assert SurvivesBlock(At(d.fs, k), At(v.fs, k), At(img.fs, k));
    }
    if At(img.fs, l) == At(d.fs, l) {
      assert SameContent(d.fs, img.fs);
      AcceptSame(p, geo, rho, d.fs, img);
    } else if At(img.fs, l) == b {
      assert SameContent(v.fs, img.fs);
      AcceptSame(p, geo, rho', v.fs, img);
    } else {
      var t := SetAt(d.fs, l, Damaged);
      assert SameContent(t, img.fs);
      SafeSameContent(p, rho, t, img.fs, img.used);
      OneTorn(p, rho, d.fs, img, l);
    }
  }

  lemma OneTorn(p: Plan, rho: Moves, fs: Fs, img: Disk, l: Loc)
    requires Safe(p, rho, img.fs, img.used) && Undamaged(p, rho, fs) && forall k :: k != l ==> At(img.fs, k) == At(fs, k)
    ensures Reached(p, img, l)
  {
    hide Safe, InTree;
    forall ino, k | InTree(p.fs0, ino, k) && At(img.fs, MovedLoc(rho, k)) == Damaged ensures MovedLoc(rho, k) == l {
      assert At(fs, MovedLoc(rho, k)) != Damaged;
    }
  }

  /** Nothing pending. */
  lemma RestGuarded(p: Plan, geo: Geometry, rho: Moves, d: Disk)
    requires GeometryOk(geo) && Safe(p, rho, d.fs, d.used) && Undamaged(p, rho, d.fs)
    requires Marked(d, true) ==> CountsAgree(geo, d)
    ensures Guarded(p, geo, (d, d))
  {
    hide Safe, Undamaged;
    SuperGuarded(p, geo, rho, d, d);
  }

  /** Only the superblock differs. */
  lemma SuperGuarded(p: Plan, geo: Geometry, rho: Moves, d: Disk, v: Disk)
    requires GeometryOk(geo) && Safe(p, rho, d.fs, d.used) && Undamaged(p, rho, d.fs)
    requires v == d.(super := v.super)
    requires Marked(d, true) ==> CountsAgree(geo, d)
    requires Marked(v, true) ==> CountsAgree(geo, v)
    ensures Guarded(p, geo, (d, v))
  {
    hide Safe, Undamaged, Acceptable, SeenWhole, TornWhileWritten, GroupFree, TotalFree;
    ReachedWhole(p, rho, v, Root(0));
    forall img | CrashDisk(d, v, img) ensures Acceptable(p, geo, img) && TornWhileWritten(d, v, img) {
      CrashSameContent(d, v, img);
      CrashTears(d, v, img);
      assert img.used == d.used;
      if Marked(img, true) {
        assert img.super == d.super || img.super == v.super;
        forall g | 0 <= g < Groups(geo) ensures GroupOk(geo, img, g) {
          assert SurvivesDesc(DescAt(d, g), DescAt(v, g), DescAt(img, g));
          assert DescAt(img, g) == DescAt(d, g) == DescAt(v, g);
          if Marked(d, true) { assert GroupOk(geo, d, g); } else { assert GroupOk(geo, v, g); }
        }
      }
      AcceptSame(p, geo, rho, d.fs, img);
    }
  }

  // ---------- whatever the superblock claims ----------

  /** As Guarded, whether or not a clean mark is honest. */
  ghost predicate Shielded(p: Plan, s: (Disk, Disk)) {
    SeenWhole(p, s.1) && forall img :: CrashDisk(s.0, s.1, img) ==> ShieldedImage(p, s, img)
  }

  ghost predicate ShieldedImage(p: Plan, s: (Disk, Disk), img: Disk) {
    (exists at :: Reached(p, img, at)) && TornWhileWritten(s.0, s.1, img)
  }

  ghost predicate Shields(p: Plan, trace: seq<(Disk, Disk)>) {
    forall k :: 0 <= k < |trace| ==> Shielded(p, trace[k])
  }

  lemma GuardsShield(p: Plan, geo: Geometry, trace: seq<(Disk, Disk)>)
    requires Guards(p, geo, trace)
    ensures Shields(p, trace)
  {
    hide SeenWhole, Reached, TornWhileWritten, CrashDisk, CountsAgree;
    forall k | 0 <= k < |trace| ensures Shielded(p, trace[k]) {
      assert Guarded(p, geo, trace[k]);
    }
  }

  /** Only the superblock differs. */
  lemma SuperShielded(p: Plan, rho: Moves, d: Disk, v: Disk)
    requires Safe(p, rho, d.fs, d.used) && Undamaged(p, rho, d.fs) && v == d.(super := v.super)
    ensures Shielded(p, (d, v))
  {
    hide Safe, Undamaged, SeenWhole, TornWhileWritten;
    ReachedWhole(p, rho, v, Root(0));
    forall img | CrashDisk(d, v, img) ensures ShieldedImage(p, (d, v), img) {
      CrashSameContent(d, v, img);
      CrashTears(d, v, img);
      assert img.used == d.used;
      SafeSameContent(p, rho, d.fs, img.fs, img.used);
      UndamagedSame(p, rho, d.fs, img.fs);
      ReachedWhole(p, rho, img, Root(0));
    }
  }

  /** A device whose calls may fail; `failed` remembers that one has. */
  class FsDevice {
    var durable: Disk
    var view: Disk
    ghost var trace: seq<(Disk, Disk)>
    ghost var failed: bool

    constructor (d: Disk)
      ensures durable == view == d && trace == [(d, d)] && !failed
    {
      durable, view := d, d;
      trace, failed := [(d, d)], false;
    }

    method WriteNode(l: Loc, b: Block) returns (ok: bool)
      modifies this
      ensures durable == old(durable) && view == old(view).(fs := SetAt(old(view).fs, l, b))
      ensures trace == old(trace) + [(durable, view)] && failed == (old(failed) || !ok)
    {
      view := view.(fs := SetAt(view.fs, l, b));
      trace := trace + [(durable, view)];
      ok := *;
      failed := failed || !ok;
    }

    method WriteBits(start: nat, length: nat, value: bool) returns (ok: bool)
      modifies this
      ensures durable == old(durable)
      ensures view == old(view).(used := if value then old(view).used + Range(start, length) else old(view).used - Range(start, length))
      ensures trace == old(trace) + [(durable, view)] && failed == (old(failed) || !ok)
    {
      view := view.(used := if value then view.used + Range(start, length) else view.used - Range(start, length));
      trace := trace + [(durable, view)];
      ok := *;
      failed := failed || !ok;
    }

    method WriteDesc(g: nat, desc: Desc) returns (ok: bool)
      modifies this
      ensures durable == old(durable) && view == old(view).(groups := old(view).groups[g := desc])
      ensures trace == old(trace) + [(durable, view)] && failed == (old(failed) || !ok)
    {
      view := view.(groups := view.groups[g := desc]);
      trace := trace + [(durable, view)];
      ok := *;
      failed := failed || !ok;
    }

    method WriteSuper(s: Super) returns (ok: bool)
      modifies this
      ensures durable == old(durable) && view == old(view).(super := s)
      ensures trace == old(trace) + [(durable, view)] && failed == (old(failed) || !ok)
    {
      view := view.(super := s);
      trace := trace + [(durable, view)];
      ok := *;
      failed := failed || !ok;
    }

    method Flush() returns (ok: bool)
      modifies this
      ensures view == old(view) && failed == (old(failed) || !ok)
      ensures if ok then durable == view && trace == old(trace) + [(view, view)] else durable == old(durable) && trace == old(trace)
    {
      ok := *;
      failed := failed || !ok;
      if ok {
        durable := view;
        trace := trace + [(view, view)];
      }
    }
  }
}
