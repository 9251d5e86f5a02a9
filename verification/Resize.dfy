/**
 The shrink finalizer and the same-group grow of src/ext4/resize.cpp. Both change only the last
 group's bitmap, its descriptor and the superblock, with backups of the last two.
 */
module Resize {
  import opened Storage
  import opened Arithmetic
  import opened FixedMetadata
  import J = Journal
  import C = Commit
  import R = CommitRun

  datatype Super = Super(blocks: nat, free: nat, reserved: nat, clean: bool)

  datatype Key = BitmapCell | DescCell | SuperCell | BackupSuper(group: nat) | BackupDesc(group: nat)

  datatype Value = BitmapV(bits: seq<bool>) | DescV(free: nat) | SuperV(super: Super)

  /** What a resize does not change: where the last group is, the free blocks of the others, the backups. */
  datatype Layout = Layout(groupStart: nat, perGroup: nat, others: nat, wide: bool, backups: seq<nat>)

  /** The last group's bitmap and free count, and the superblock. */
  datatype State = State(bits: seq<bool>, free: nat, super: Super)

  /** Clear bits among the first `n`. */
  function ClearBits(bits: seq<bool>, n: nat): nat
    requires n <= |bits|
  {
    if n == 0 then 0 else ClearBits(bits, n - 1) + if bits[n - 1] then 0 else 1
  }

  /** The filesystem ends inside the last group, whose bitmap covers the group. */
  predicate Shaped(l: Layout, s: State) {
    l.groupStart < s.super.blocks <= l.groupStart + l.perGroup && l.perGroup <= |s.bits|
  }

  /** Descriptor and superblock counts equal the clear bits in range. */
  predicate Agree(l: Layout, s: State) {
    && Shaped(l, s)
    && s.free == ClearBits(s.bits, s.super.blocks - l.groupStart)
    && s.super.free == l.others + s.free
  }

  /** set_desc_free: 32-byte descriptors keep 16 bits of the count. */
  function StoredFree(l: Layout, v: nat): nat {
    v % if l.wide then 0x1_0000_0000 else 0x1_0000
  }

  predicate CountsFit(l: Layout) {
    l.perGroup < if l.wide then 0x1_0000_0000 else 0x1_0000
  }

  // ---------- bitmaps ----------

  function Fill(bits: seq<bool>, lo: nat, hi: nat, v: bool): (r: seq<bool>)
    ensures |r| == |bits|
    ensures forall i :: 0 <= i < |r| ==> r[i] == if lo <= i < hi then v else bits[i]
  {
    seq(|bits|, i requires 0 <= i < |bits| => if lo <= i < hi then v else bits[i])
  }

  predicate AllBits(bits: seq<bool>, lo: nat, hi: nat, v: bool) {
    forall i :: lo <= i < hi && i < |bits| ==> bits[i] == v
  }

  lemma {:induction false} ClearDepends(a: seq<bool>, b: seq<bool>, n: nat)
    requires n <= |a| && n <= |b| && forall i :: 0 <= i < n ==> a[i] == b[i]
    ensures ClearBits(a, n) == ClearBits(b, n)
    decreases n
  {
    if n > 0 { ClearDepends(a, b, n - 1); }
  }

  lemma {:induction false} ClearRun(bits: seq<bool>, lo: nat, hi: nat)
    requires lo <= hi <= |bits| && AllBits(bits, lo, hi, false)
    ensures ClearBits(bits, hi) == ClearBits(bits, lo) + (hi - lo)
    decreases hi
  {
    if lo < hi { ClearRun(bits, lo, hi - 1); }
  }

  lemma {:induction false} ClearBound(bits: seq<bool>, n: nat)
    requires n <= |bits|
    ensures ClearBits(bits, n) <= n
    decreases n
  {
    if n > 0 { ClearBound(bits, n - 1); }
  }

  /** set_bit over a range, refusing a bit that is already set. */
  method MarkTail(bm: array<bool>, lo: nat, hi: nat) returns (ok: bool)
    requires lo <= hi <= bm.Length
    modifies bm
    ensures ok <==> AllBits(old(bm[..]), lo, hi, false)
    ensures ok ==> bm[..] == Fill(old(bm[..]), lo, hi, true)
  {
    for i := lo to hi
      invariant AllBits(old(bm[..]), lo, i, false)
      invariant forall j :: 0 <= j < bm.Length ==> bm[j] == if lo <= j < i then true else old(bm[j])
    {
      if bm[i] { return false; }
      bm[i] := true;
    }
    ok := true;
  }

  /** clear_bit over a range. */
  method ClearRange(bm: array<bool>, lo: nat, hi: nat)
    requires lo <= hi <= bm.Length
    modifies bm
    ensures bm[..] == Fill(old(bm[..]), lo, hi, false)
  {
    for i := lo to hi
      invariant forall j :: 0 <= j < bm.Length ==> bm[j] == if lo <= j < i then false else old(bm[j])
    {
      bm[i] := false;
    }
  }

  // ---------- what the two operations compute ----------

  function Reserved(reserved: nat, target: nat): nat {
    if reserved > target then target / 20 else reserved
  }

  function Shrunk(l: Layout, s: State, target: nat): State
    requires Shaped(l, s) && l.groupStart < target < s.super.blocks
    requires s.super.blocks - target <= s.free && s.super.blocks - target <= s.super.free
  {
    var removed := s.super.blocks - target;
    State(Fill(s.bits, target - l.groupStart, s.super.blocks - l.groupStart, true), s.free - removed,
          Super(target, s.super.free - removed, Reserved(s.super.reserved, target), true))
  }

  function Grown(l: Layout, s: State, target: nat): State
    requires Shaped(l, s) && s.super.blocks < target
  {
    var added := target - s.super.blocks;
    State(Fill(s.bits, s.super.blocks - l.groupStart, target - l.groupStart, false), s.free + added,
          s.super.(blocks := target, free := s.super.free + added, clean := true))
  }

  /** A tail that is entirely clear: what the readiness check has seen. */
  predicate TailClear(l: Layout, s: State, target: nat)
    requires l.groupStart < target < s.super.blocks
  {
    AllBits(s.bits, target - l.groupStart, s.super.blocks - l.groupStart, false)
  }

  predicate BeyondSet(l: Layout, s: State, target: nat)
    requires l.groupStart < s.super.blocks < target
  {
    AllBits(s.bits, s.super.blocks - l.groupStart, target - l.groupStart, true)
  }

  /** The counts are large enough for the tail, so the "corrupt" branches are unreachable, and stay right. */
  lemma ShrinkAgrees(l: Layout, s: State, target: nat)
    requires Agree(l, s) && l.groupStart < target < s.super.blocks && TailClear(l, s, target)
    ensures s.super.blocks - target <= s.free && s.super.blocks - target <= s.super.free
    ensures Agree(l, Shrunk(l, s, target)) && BeyondSet(l, Shrunk(l, s, target), s.super.blocks)
  {
    var a, b := target - l.groupStart, s.super.blocks - l.groupStart;
    ClearRun(s.bits, a, b);
    ClearDepends(s.bits, Fill(s.bits, a, b, true), a);
  }

  lemma GrowAgrees(l: Layout, s: State, target: nat)
    requires Agree(l, s) && s.super.blocks < target <= l.groupStart + l.perGroup && BeyondSet(l, s, target)
    ensures Agree(l, Grown(l, s, target)) && TailClear(l, Grown(l, s, target), s.super.blocks)
  {
    var a, b := s.super.blocks - l.groupStart, target - l.groupStart;
    var bits := Fill(s.bits, a, b, false);
    ClearDepends(s.bits, bits, a);
    ClearRun(bits, a, b);
  }

  /**
   Shrinking and growing back: bitmap, block count and free counts come back exactly, the filesystem
   is clean, and the reserved count comes back exactly when it fitted the smaller size.
   */
  lemma ShrinkThenGrow(l: Layout, s: State, target: nat)
    requires Agree(l, s) && l.groupStart < target < s.super.blocks && TailClear(l, s, target)
    ensures s.super.blocks - target <= s.free && s.super.blocks - target <= s.super.free
    ensures var back := Grown(l, Shrunk(l, s, target), s.super.blocks);
      && back.bits == s.bits && back.free == s.free
      && back.super == s.super.(clean := true, reserved := Reserved(s.super.reserved, target))
      && (back == s.(super := s.super.(clean := true)) <==> s.super.reserved <= target)
  {
    ShrinkAgrees(l, s, target);
    var back := Grown(l, Shrunk(l, s, target), s.super.blocks);
    assert back.bits == s.bits;
    if s.super.reserved > target { assert target / 20 <= target; }
  }

  /** Growing and shrinking back gives the filesystem back exactly when the reserved count fitted it. */
  lemma GrowThenShrink(l: Layout, s: State, target: nat)
    requires Agree(l, s) && s.super.blocks < target <= l.groupStart + l.perGroup && BeyondSet(l, s, target)
    ensures var back := Shrunk(l, Grown(l, s, target), s.super.blocks);
      && back == s.(super := s.super.(clean := true, reserved := Reserved(s.super.reserved, s.super.blocks)))
      && (back == s.(super := s.super.(clean := true)) <==> s.super.reserved <= s.super.blocks)
  {
    GrowAgrees(l, s, target);
    assert Shrunk(l, Grown(l, s, target), s.super.blocks).bits == s.bits;
    if s.super.reserved > s.super.blocks { assert s.super.blocks / 20 <= s.super.blocks; }
  }

  /** What a shrink does, cell by cell: the tail is taken, counts fall by its length, a reserved count that no longer fits becomes a twentieth. */
  lemma ShrunkMeans(l: Layout, s: State, target: nat)
    requires Shaped(l, s) && l.groupStart < target < s.super.blocks
    requires s.super.blocks - target <= s.free && s.super.blocks - target <= s.super.free
    ensures var t := Shrunk(l, s, target);
      && |t.bits| == |s.bits| && (forall i :: 0 <= i < |s.bits| ==> (t.bits[i] <==> s.bits[i] || target <= l.groupStart + i < s.super.blocks))
      && t.free + s.super.blocks == s.free + target && t.super.free + s.super.blocks == s.super.free + target
      && t.super.blocks == target && t.super.clean
      && (s.super.reserved <= target ==> t.super.reserved == s.super.reserved)
      && (s.super.reserved > target ==> 20 * t.super.reserved <= target < 20 * t.super.reserved + 20)
  {
  }

  lemma GrownMeans(l: Layout, s: State, target: nat)
    requires Shaped(l, s) && s.super.blocks < target
    ensures var t := Grown(l, s, target);
      && |t.bits| == |s.bits| && (forall i :: 0 <= i < |s.bits| ==> (t.bits[i] <==> s.bits[i] && !(s.super.blocks <= l.groupStart + i < target)))
      && t.free + s.super.blocks == s.free + target && t.super.free + s.super.blocks == s.super.free + target
      && t.super == s.super.(blocks := target, free := t.super.free, clean := true)
  {
  }

  // ---------- crash points ----------

  type DiskImage = Image<Key, Value>

  predicate Readable(img: DiskImage) {
    && BitmapCell in img && img[BitmapCell].Intact? && img[BitmapCell].value.BitmapV?
    && DescCell in img && img[DescCell].Intact? && img[DescCell].value.DescV?
    && SuperCell in img && img[SuperCell].Intact? && img[SuperCell].value.SuperV?
  }

  function StateOf(img: DiskImage): State
    requires Readable(img)
  {
    State(img[BitmapCell].value.bits, img[DescCell].value.free, img[SuperCell].value.super)
  }

  predicate CleanSuper(v: Value) { v.SuperV? && v.super.clean }

  predicate CleanImage(img: DiskImage) {
    SuperCell in img && img[SuperCell].Intact? && CleanSuper(img[SuperCell].value)
  }

  /** A primary superblock marked clean implies that all counts agree. */
  predicate Trustworthy(l: Layout, img: DiskImage) {
    CleanImage(img) ==> Readable(img) && Agree(l, StateOf(img))
  }

  ghost predicate Guarded(l: Layout, m: Medium<Key, Value>) {
    forall img :: CrashImage(m, img) ==> Trustworthy(l, img)
  }

  ghost predicate Guards(l: Layout, trace: seq<Medium<Key, Value>>) {
    forall i :: 0 <= i < |trace| ==> Guarded(l, trace[i])
  }

  /** Neither the durable superblock nor any pending one is clean. */
  ghost predicate DirtyThroughout(m: Medium<Key, Value>) {
    && !CleanImage(m.durable)
    && forall i :: 0 <= i < |m.pending| && m.pending[i].0 == SuperCell ==> !CleanSuper(m.pending[i].1)
  }

  /** Only superblocks are pending, and a clean one agrees with the durable bitmap and descriptor. */
  ghost predicate SupersAgree(l: Layout, m: Medium<Key, Value>) {
    && Readable(m.durable) && Trustworthy(l, m.durable)
    && (forall i :: 0 <= i < |m.pending| ==> m.pending[i].0 == SuperCell || m.pending[i].0.BackupSuper?)
    && (forall i :: 0 <= i < |m.pending| && m.pending[i].0 == SuperCell && CleanSuper(m.pending[i].1) ==>
          Agree(l, StateOf(m.durable).(super := m.pending[i].1.super)))
  }

  lemma GuardDirty(l: Layout, m: Medium<Key, Value>)
    requires DirtyThroughout(m)
    ensures Guarded(l, m)
  {
    forall img | CrashImage(m, img) ensures !CleanImage(img) {
      if SuperCell in img { assert Survives(m, SuperCell, img[SuperCell]); }
    }
  }

  lemma GuardSupers(l: Layout, m: Medium<Key, Value>)
    requires SupersAgree(l, m)
    ensures Guarded(l, m)
  {
    hide Agree;
    forall img | CrashImage(m, img) ensures Trustworthy(l, img) {
      if CleanImage(img) {
        assert Survives(m, SuperCell, img[SuperCell]) && Survives(m, BitmapCell, img[BitmapCell]) && Survives(m, DescCell, img[DescCell]);
        assert !Written(m, BitmapCell) && !Written(m, DescCell);
        assert img[BitmapCell] == m.durable[BitmapCell] && img[DescCell] == m.durable[DescCell];
      }
    }
  }

  // ---------- writing ----------

  function SuperWrites(l: Layout, s: Super): (r: seq<(Key, Value)>)
    ensures |r| == |l.backups| + 1
  {
    [(SuperCell, SuperV(s))] + seq(|l.backups|, i requires 0 <= i < |l.backups| => (BackupSuper(l.backups[i]), SuperV(s)))
  }

  function GroupWrites(l: Layout, bits: seq<bool>, free: nat): (r: seq<(Key, Value)>)
    ensures |r| == |l.backups| + 2
  {
    [(BitmapCell, BitmapV(bits)), (DescCell, DescV(free))]
    + seq(|l.backups|, i requires 0 <= i < |l.backups| => (BackupDesc(l.backups[i]), DescV(free)))
  }

  predicate SameCell(a: DiskImage, b: DiskImage, k: Key) {
    (k in a <==> k in b) && (k in a ==> a[k] == b[k])
  }

  predicate Superblock(k: Key) { k == SuperCell || k.BackupSuper? }

  /** Every copy of the superblock is `s`. */
  ghost predicate SupersHold(l: Layout, img: DiskImage, s: Super) {
    && SuperCell in img && img[SuperCell] == Intact(SuperV(s))
    && forall i :: 0 <= i < |l.backups| ==> BackupSuper(l.backups[i]) in img && img[BackupSuper(l.backups[i])] == Intact(SuperV(s))
  }

  /** Every copy of the last group's descriptor holds the free count. */
  ghost predicate DescsHold(l: Layout, img: DiskImage, free: nat) {
    && DescCell in img && img[DescCell] == Intact(DescV(free))
    && forall i :: 0 <= i < |l.backups| ==> BackupDesc(l.backups[i]) in img && img[BackupDesc(l.backups[i])] == Intact(DescV(free))
  }

  /** Only superblock cells differ, or only the others. */
  ghost predicate Changed(a: DiskImage, b: DiskImage, supers: bool) {
    forall k :: Superblock(k) != supers ==> SameCell(a, b, k)
  }

  lemma SupersLanded(l: Layout, img: DiskImage, s: Super)
    ensures var r := Flushed(img, SuperWrites(l, s)); SupersHold(l, r, s) && Changed(img, r, true)
  {
    var w := SuperWrites(l, s);
    var r := Flushed(img, w);
    assert w[0].0 == SuperCell;
    FlushedSame(img, w, SuperCell, SuperV(s));
    forall i | 0 <= i < |l.backups| ensures BackupSuper(l.backups[i]) in r && r[BackupSuper(l.backups[i])] == Intact(SuperV(s)) {
      assert w[i + 1].0 == BackupSuper(l.backups[i]);
      FlushedSame(img, w, BackupSuper(l.backups[i]), SuperV(s));
    }
    forall k | !Superblock(k) ensures SameCell(img, r, k) { FlushedOther(img, w, k); }
  }

  lemma GroupLanded(l: Layout, img: DiskImage, bits: seq<bool>, free: nat)
    ensures var r := Flushed(img, GroupWrites(l, bits, free)); DescsHold(l, r, free) && Changed(img, r, false)
  {
    var w := GroupWrites(l, bits, free);
    var r := Flushed(img, w);
    assert w[1].0 == DescCell;
    FlushedSame(img, w, DescCell, DescV(free));
    forall i | 0 <= i < |l.backups| ensures BackupDesc(l.backups[i]) in r && r[BackupDesc(l.backups[i])] == Intact(DescV(free)) {
      assert w[i + 2].0 == BackupDesc(l.backups[i]);
      FlushedSame(img, w, BackupDesc(l.backups[i]), DescV(free));
    }
    forall k | Superblock(k) ensures SameCell(img, r, k) { FlushedOther(img, w, k); }
  }

  lemma DescsStay(l: Layout, a: DiskImage, b: DiskImage, free: nat)
    requires DescsHold(l, a, free) && Changed(a, b, true)
    ensures DescsHold(l, b, free)
  {
    assert SameCell(a, b, DescCell);
    forall i | 0 <= i < |l.backups| ensures SameCell(a, b, BackupDesc(l.backups[i])) { }
  }

  lemma SupersFlushed(l: Layout, img: DiskImage, s: Super)
    requires Readable(img)
    ensures var r := Flushed(img, SuperWrites(l, s));
      Readable(r) && StateOf(r) == StateOf(img).(super := s)
  {
    var w := SuperWrites(l, s);
    FlushedAt(img, w, 0);
    FlushedOther(img, w, BitmapCell);
    FlushedOther(img, w, DescCell);
  }

  lemma GroupFlushed(l: Layout, img: DiskImage, bits: seq<bool>, free: nat)
    requires Readable(img)
    ensures var r := Flushed(img, GroupWrites(l, bits, free));
      Readable(r) && StateOf(r) == State(bits, free, StateOf(img).super)
  {
    var w := GroupWrites(l, bits, free);
    FlushedAt(img, w, 0);
    FlushedAt(img, w, 1);
    FlushedOther(img, w, SuperCell);
  }

  ghost predicate AtRest(dev: Device<Key, Value>, l: Layout, s: State)
    reads dev
  {
    && dev.medium.pending == [] && Readable(dev.medium.durable) && StateOf(dev.medium.durable) == s
    && Guards(l, dev.trace)
  }

  /** The bitmap and the descriptor with its backups are durable as in `s` and not about to change. */
  ghost predicate GroupKept(s: State, m: Medium<Key, Value>) {
    && Readable(m.durable) && StateOf(m.durable).bits == s.bits && StateOf(m.durable).free == s.free
    && forall i :: 0 <= i < |m.pending| ==> m.pending[i].0 == SuperCell || m.pending[i].0.BackupSuper?
  }

  /** Since `before` only superblocks have been written. */
  ghost predicate KeptSince(s: State, before: seq<Medium<Key, Value>>, after: seq<Medium<Key, Value>>) {
    |before| <= |after| && forall k :: |before| <= k < |after| ==> GroupKept(s, after[k])
  }

  /** Since `before` the disk has been at rest in state `s`. */
  ghost predicate Visited(before: seq<Medium<Key, Value>>, after: seq<Medium<Key, Value>>, s: State) {
    exists k :: |before| <= k < |after| && after[k].pending == [] && Readable(after[k].durable) && StateOf(after[k].durable) == s
  }

  lemma VisitedNow(before: seq<Medium<Key, Value>>, after: seq<Medium<Key, Value>>, s: State)
    requires |before| < |after|
    requires var m := after[|after| - 1]; m.pending == [] && Readable(m.durable) && StateOf(m.durable) == s
    ensures Visited(before, after, s)
  {
  }

  lemma VisitedStays(before: seq<Medium<Key, Value>>, mid: seq<Medium<Key, Value>>, after: seq<Medium<Key, Value>>, s: State)
    requires Visited(before, mid, s) && mid <= after
    ensures Visited(before, after, s)
  {
    var k :| |before| <= k < |mid| && mid[k].pending == [] && Readable(mid[k].durable) && StateOf(mid[k].durable) == s;
    assert after[k] == mid[k];
  }

  lemma SupersPending(l: Layout, m: Medium<Key, Value>, s: State, next: Super, n: nat)
    requires Readable(m.durable) && StateOf(m.durable) == s && n <= |l.backups| + 1 && m.pending == SuperWrites(l, next)[..n]
    requires (s.super.clean ==> Agree(l, s)) && (next.clean ==> Agree(l, s.(super := next)))
    ensures Guarded(l, m) && GroupKept(s, m)
  {
    GuardSupers(l, m);
  }

  lemma GroupPending(l: Layout, m: Medium<Key, Value>, s: State, bits: seq<bool>, free: nat, n: nat)
    requires Readable(m.durable) && StateOf(m.durable) == s && !s.super.clean && n <= |l.backups| + 2
    requires m.pending == GroupWrites(l, bits, free)[..n]
    ensures Guarded(l, m)
  {
    GuardDirty(l, m);
  }

  lemma SameGroup(s: State, next: Super, m: Medium<Key, Value>)
    ensures GroupKept(s.(super := next), m) <==> GroupKept(s, m)
  {
  }

  /** The primary and every backup, not yet flushed. */
  method WriteSupers(dev: Device<Key, Value>, l: Layout, next: Super, ghost s: State) returns (ok: bool)
    requires AtRest(dev, l, s)
    requires (s.super.clean ==> Agree(l, s)) && (next.clean ==> Agree(l, s.(super := next)))
    modifies dev
    ensures dev.failed == (old(dev.failed) || !ok)
    ensures Guards(l, dev.trace) && KeptSince(s, old(dev.trace), dev.trace) && old(dev.trace) <= dev.trace
    ensures ok ==> dev.medium == Medium(old(dev.medium).durable, SuperWrites(l, next))
  {
    hide Guarded, Agree, Readable, GroupKept;
    ghost var d := dev.medium.durable;
    ok := dev.Write(SuperCell, SuperV(next));
    SupersPending(l, dev.medium, s, next, 1);
    if !ok { return; }
    for i := 0 to |l.backups|
      invariant dev.failed == old(dev.failed)
      invariant dev.medium == Medium(d, SuperWrites(l, next)[..i + 1])
      invariant Guards(l, dev.trace) && KeptSince(s, old(dev.trace), dev.trace) && old(dev.trace) <= dev.trace
    {
      ok := dev.Write(BackupSuper(l.backups[i]), SuperV(next));
      assert SuperWrites(l, next)[..i + 2] == SuperWrites(l, next)[..i + 1] + [SuperWrites(l, next)[i + 1]];
      SupersPending(l, dev.medium, s, next, i + 2);
      if !ok { return; }
    }
    assert SuperWrites(l, next)[..|l.backups| + 1] == SuperWrites(l, next);
  }

  /** write_super_copies: the primary, every backup, then a flush. */
  method WriteSuperCopies(dev: Device<Key, Value>, l: Layout, next: Super, ghost s: State) returns (ok: bool)
    requires AtRest(dev, l, s)
    requires (s.super.clean ==> Agree(l, s)) && (next.clean ==> Agree(l, s.(super := next)))
    modifies dev
    ensures dev.failed == (old(dev.failed) || !ok)
    ensures Guards(l, dev.trace) && KeptSince(s, old(dev.trace), dev.trace)
    ensures old(dev.trace) <= dev.trace && (ok ==> Visited(old(dev.trace), dev.trace, s.(super := next)))
    ensures ok ==> AtRest(dev, l, s.(super := next))
    ensures ok ==> SupersHold(l, dev.medium.durable, next) && Changed(old(dev.medium).durable, dev.medium.durable, true)
  {
    hide Guarded, Agree, Readable, GroupKept, SupersHold, Changed, Visited, SuperWrites;
    ghost var d := dev.medium.durable;
    ok := WriteSupers(dev, l, next, s);
    if !ok { return; }
    SupersFlushed(l, d, next);
    SupersLanded(l, d, next);
    ok := dev.Flush();
    if ok {
      SupersPending(l, dev.medium, s.(super := next), next, 0);
      SameGroup(s, next, dev.medium);
      VisitedNow(old(dev.trace), dev.trace, s.(super := next));
    }
  }

  /** Bitmap, descriptor and descriptor backups, then a flush; only ever on a filesystem marked dirty. */
  method WriteGroup(dev: Device<Key, Value>, l: Layout, bits: seq<bool>, free: nat, ghost s: State) returns (ok: bool)
    requires AtRest(dev, l, s) && !s.super.clean
    modifies dev
    ensures dev.failed == (old(dev.failed) || !ok)
    ensures Guards(l, dev.trace)
    ensures ok ==> AtRest(dev, l, State(bits, free, s.super))
    ensures ok ==> DescsHold(l, dev.medium.durable, free) && Changed(old(dev.medium).durable, dev.medium.durable, false)
  {
    hide Guarded, Readable, DescsHold, Changed;
    ghost var d := dev.medium.durable;
    ghost var w := GroupWrites(l, bits, free);
    ok := dev.Write(BitmapCell, BitmapV(bits));
    GroupPending(l, dev.medium, s, bits, free, 1);
    if !ok { return; }
    ok := dev.Write(DescCell, DescV(free));
    assert w[..2] == w[..1] + [w[1]];
    GroupPending(l, dev.medium, s, bits, free, 2);
    if !ok { return; }
    for i := 0 to |l.backups|
      invariant dev.failed == old(dev.failed)
      invariant dev.medium == Medium(d, w[..i + 2])
      invariant Guards(l, dev.trace)
    {
      ok := dev.Write(BackupDesc(l.backups[i]), DescV(free));
      assert w[..i + 3] == w[..i + 2] + [w[i + 2]];
      GroupPending(l, dev.medium, s, bits, free, i + 3);
      if !ok { return; }
    }
    assert w[..|l.backups| + 2] == w;
    GroupFlushed(l, d, bits, free);
    GroupLanded(l, d, bits, free);
    ok := dev.Flush();
    if ok { GroupPending(l, dev.medium, State(bits, free, s.super), bits, free, 0); }
  }

  // ---------- the operations ----------

  datatype Outcome =
    | Done | NotReady | WrongPhase | TailAllocated | GroupFreeTooSmall | SuperFreeTooSmall | Overflow | Refused | Failed | Unverified

  /** The new superblock, still dirty; the verification; then the clean mark. */
  method WriteResized(dev: Device<Key, Value>, l: Layout, next: Super, verifyAfter: bool, ghost s: State) returns (r: Outcome)
    requires AtRest(dev, l, s) && !s.super.clean && !next.clean && Agree(l, s.(super := next.(clean := true)))
    modifies dev
    ensures dev.failed == (old(dev.failed) || r == Failed)
    ensures Guards(l, dev.trace) && r in {Done, Failed}
    ensures r == Done ==> AtRest(dev, l, s.(super := next.(clean := true)))
    ensures r == Done ==> Visited(old(dev.trace), dev.trace, s.(super := next))
    ensures r == Done ==> SupersHold(l, dev.medium.durable, next.(clean := true))
    ensures r == Done ==> forall free :: DescsHold(l, old(dev.medium).durable, free) ==> DescsHold(l, dev.medium.durable, free)
  {
    hide Guarded, Guards, Readable, ClearBits, SupersHold, DescsHold, Changed, Visited;
    ghost var before := dev.medium.durable;
    var ok := WriteSuperCopies(dev, l, next, s);
    if !ok { return Failed; }
    ghost var mid, passed := dev.medium.durable, dev.trace;
    if verifyAfter {
      var agree := Agree(l, StateOf(dev.medium.durable));
      if !agree { return Unverified; }
    }
    ok := WriteSuperCopies(dev, l, next.(clean := true), s.(super := next));
    if !ok { return Failed; }
    VisitedStays(old(dev.trace), passed, dev.trace, s.(super := next));
    forall free | DescsHold(l, before, free) ensures DescsHold(l, dev.medium.durable, free) {
      DescsStay(l, before, mid, free);
      DescsStay(l, mid, dev.medium.durable, free);
    }
    r := Done;
  }

  /** No bitmap and no part of an inode table lies in [target, end). */
  ghost predicate NoneFixed(descs: seq<GroupDesc>, tableBlocks: nat, target: nat, end: nat) {
    forall b: nat :: IsFixed(descs, tableBlocks, b) && target <= b ==> end <= b
  }

  predicate ShrinkPhase(phase: J.Phase) { phase == J.Compacted || phase == J.Staged }

  /**
   finalize_metadata_only_shrink. Its three "corrupt" answers and a failed verification are
   impossible when the counts agreed before; at every crash point a clean superblock implies
   agreeing counts; the bitmap and the descriptor are written only once metadata_finalize is in the
   journal; a successful run leaves exactly the shrunk filesystem.
   */
  method FinalizeShrink(dev: Device<Key, Value>, l: Layout, target: nat, descs: seq<GroupDesc>, tableBlocks: nat,
                        log: C.Log, phase: J.Phase, ghost s: State)
    returns (r: Outcome)
    requires AtRest(dev, l, s) && Agree(l, s) && CountsFit(l)
    modifies dev, log
    ensures C.Failing(dev.failed, log.failed, old(dev.failed), old(log.failed), r == Failed)
    ensures Guards(l, dev.trace)
    ensures r in {Done, NotReady, WrongPhase, Failed}
    ensures r == NotReady <==> !Ready(l, s, target, descs, tableBlocks)
    ensures r == WrongPhase <==> r != NotReady && !ShrinkPhase(phase)
    ensures r == NotReady || r == WrongPhase ==> dev.medium == old(dev.medium) && log.entries == old(log.entries)
    ensures R.Entered(old(log.entries), log.entries) || KeptSince(s, old(dev.trace), dev.trace)
    ensures r == Done ==> log.entries == ShrinkJournal(old(log.entries))
    ensures |log.entries| > |old(log.entries)| + 2 ==>
      s.super.blocks - target <= s.free && s.super.blocks - target <= s.super.free && AtRest(dev, l, Shrunk(l, s, target))
    ensures r == Done ==> s.super.blocks - target <= s.free && s.super.blocks - target <= s.super.free && AtRest(dev, l, Shrunk(l, s, target))
    ensures r == Done ==> SupersHold(l, dev.medium.durable, Shrunk(l, s, target).super) && DescsHold(l, dev.medium.durable, Shrunk(l, s, target).free)
  {
    hide Guarded, Guards, Readable, ClearBits, AllBits, IsFixed, FixedAbove, R.Entered, GroupKept, R.Opened, SupersHold, DescsHold;
    var now := StateOf(dev.medium.durable);
    if target >= now.super.blocks || target <= l.groupStart { return NotReady; }
    var fixedTail := CountFixed(descs, tableBlocks, target, now.super.blocks);
    if fixedTail != 0 { return NotReady; }
    var clear := TailClear(l, now, target);
    if !clear { return NotReady; }
    if !ShrinkPhase(phase) { return WrongPhase; }
    var ok := OpenShrink(dev, log, l, now.super.(clean := false), s);
    if !ok { return Failed; }
    assert |log.entries| == |old(log.entries)| + 2 by { OpenedLength(old(log.entries)); }
    JustEntered(old(log.entries), log.entries);
    ghost var begun := log.entries;
    r := ShrinkGroup(dev, l, target, now, s);
    if r != Done { return; }
    ok := CloseShrink(log);
    R.EnteredGrows(old(log.entries), begun, log.entries);
    r := if ok then Done else Failed;
  }

  /** Mark the filesystem dirty and enter metadata_finalize; nothing but superblocks is written. */
  method OpenShrink(dev: Device<Key, Value>, log: C.Log, l: Layout, dirty: Super, ghost s: State) returns (ok: bool)
    requires AtRest(dev, l, s) && Agree(l, s) && dirty == s.super.(clean := false)
    modifies dev, log
    ensures C.Failing(dev.failed, log.failed, old(dev.failed), old(log.failed), !ok)
    ensures Guards(l, dev.trace) && KeptSince(s, old(dev.trace), dev.trace)
    ensures log.entries != old(log.entries) ==> AtRest(dev, l, s.(super := dirty))
    ensures |log.entries| <= |old(log.entries)| + 2
    ensures ok ==> AtRest(dev, l, s.(super := dirty)) && log.entries == R.Opened(old(log.entries), true)
  {
    hide Guarded, Guards, Readable, Agree, GroupKept;
    ok := WriteSuperCopies(dev, l, dirty, s);
    if !ok { return; }
    ok := log.Append(C.MoveRecord(J.MarkedDirty, R.NO_MOVE));
    if !ok { return; }
    ok := R.LogCheckpoint(log, J.MetadataFinalize);
  }

  /** The tail bits, the counts and the size, from a filesystem marked dirty to one marked clean. */
  method ShrinkGroup(dev: Device<Key, Value>, l: Layout, target: nat, now: State, ghost s: State) returns (r: Outcome)
    requires now == s && AtRest(dev, l, s.(super := s.super.(clean := false))) && Agree(l, s) && CountsFit(l)
    requires l.groupStart < target < s.super.blocks && TailClear(l, s, target)
    modifies dev
    ensures dev.failed == (old(dev.failed) || r == Failed)
    ensures Guards(l, dev.trace) && r in {Done, Failed}
    ensures s.super.blocks - target <= s.free && s.super.blocks - target <= s.super.free
    ensures r == Done ==> AtRest(dev, l, Shrunk(l, s, target)) && SupersHold(l, dev.medium.durable, Shrunk(l, s, target).super) && DescsHold(l, dev.medium.durable, Shrunk(l, s, target).free)
  {
    hide SupersHold, DescsHold, Changed;
    hide Guarded, Guards, Readable, ClearBits, AllBits;
    ShrinkAgrees(l, s, target);
    var dirty := now.super.(clean := false);
    var removed := now.super.blocks - target;
    var bm := new bool[|now.bits|](i requires 0 <= i < |now.bits| => now.bits[i]);
    assert bm[..] == now.bits;
    var ok := MarkTail(bm, target - l.groupStart, now.super.blocks - l.groupStart);
    if !ok { return TailAllocated; }
    if removed > now.free { return GroupFreeTooSmall; }
    FreeFits(l, s, target);
    ok := WriteGroup(dev, l, bm[..], StoredFree(l, now.free - removed), s.(super := dirty));
    if !ok { return Failed; }
    if removed > now.super.free { return SuperFreeTooSmall; }
    var next := Super(target, now.super.free - removed, Reserved(now.super.reserved, target), false);
    ghost var mid := State(bm[..], now.free - removed, dirty);
    r := WriteResized(dev, l, next, true, mid);
  }

  /** Record the clean filesystem and enter filesystem_shrunk. */
  method CloseShrink(log: C.Log) returns (ok: bool)
    modifies log
    ensures log.failed == (old(log.failed) || !ok)
    ensures old(log.entries) <= log.entries
    ensures ok ==> log.entries == Shortened(old(log.entries))
  {
    ok := log.Append(C.MoveRecord(J.MarkedClean, R.NO_MOVE));
    if !ok { return; }
    ok := R.LogCheckpoint(log, J.FilesystemShrunk);
  }

  function Shortened(entries: seq<J.Record>): seq<J.Record> {
    var e := entries + [C.MoveRecord(J.MarkedClean, R.NO_MOVE)];
    e + [J.CheckpointRecord(J.LastTransaction(e), J.FilesystemShrunk)]
  }

  /** The records of a finished shrink. */
  function ShrinkJournal(entries: seq<J.Record>): seq<J.Record> {
    Shortened(R.Opened(entries, true))
  }

  lemma OpenedLength(rs: seq<J.Record>)
    ensures |R.Opened(rs, true)| == |rs| + 2
  {
  }

  lemma JustEntered(before: seq<J.Record>, after: seq<J.Record>)
    requires after == R.Opened(before, true)
    ensures R.Entered(before, after)
  {
    assert after[|before| + 1].aux == J.PhaseCode(J.MetadataFinalize);
  }

  /** A group's free count fits the descriptor field. */
  lemma FreeFits(l: Layout, s: State, target: nat)
    requires Agree(l, s) && CountsFit(l) && l.groupStart < target < s.super.blocks && TailClear(l, s, target)
    ensures s.super.blocks - target <= s.free
    ensures StoredFree(l, s.free - (s.super.blocks - target)) == s.free - (s.super.blocks - target)
  {
    ShrinkAgrees(l, s, target);
    ClearBound(s.bits, s.super.blocks - l.groupStart);
  }

  lemma GrownFits(l: Layout, s: State, target: nat)
    requires Agree(l, s) && CountsFit(l) && s.super.blocks < target <= l.groupStart + l.perGroup && BeyondSet(l, s, target)
    ensures StoredFree(l, s.free + (target - s.super.blocks)) == s.free + (target - s.super.blocks)
    ensures s.free + (target - s.super.blocks) < 0x1_0000_0000
  {
    GrowAgrees(l, s, target);
    ClearBound(Grown(l, s, target).bits, target - l.groupStart);
  }

  /** Every block of the new range is marked unavailable and is not metadata. */
  method Growable(bits: seq<bool>, lo: nat, hi: nat, groupStart: nat, desc: GroupDesc, tableBlocks: nat) returns (ok: bool)
    requires groupStart <= lo <= hi <= groupStart + |bits|
    ensures ok <==> AllBits(bits, lo - groupStart, hi - groupStart, true) && forall b: nat :: lo <= b < hi ==> !FixedIn(desc, tableBlocks, b)
  {
    for b := lo to hi
      invariant AllBits(bits, lo - groupStart, b - groupStart, true)
      invariant forall x: nat :: lo <= x < b ==> !FixedIn(desc, tableBlocks, x)
    {
      if FixedIn(desc, tableBlocks, b) { return false; }
      if !bits[b - groupStart] { return false; }
    }
    ok := true;
  }

  /**
   grow_within_last_group, on a device of `deviceBlocks` blocks, with the last group's descriptor. Refused
   before any write unless the new range is marked unavailable and free of metadata.
   */
  method GrowWithinGroup(dev: Device<Key, Value>, l: Layout, target: nat, deviceBlocks: nat, desc: GroupDesc, tableBlocks: nat,
                         verifyAfter: bool, ghost s: State)
    returns (r: Outcome)
    requires AtRest(dev, l, s) && Agree(l, s) && CountsFit(l) && s.super.free + l.perGroup <= MAX64
    modifies dev
    ensures dev.failed == (old(dev.failed) || r == Failed)
    ensures Guards(l, dev.trace)
    ensures r in {Done, Refused, Failed}
    ensures r == Refused <==>
      !(s.super.clean && s.super.blocks < target <= deviceBlocks && target <= l.groupStart + l.perGroup
        && BeyondSet(l, s, target) && forall b: nat :: s.super.blocks <= b < target ==> !FixedIn(desc, tableBlocks, b))
    ensures r == Refused ==> dev.medium == old(dev.medium)
    ensures r == Done ==> s.super.blocks < target && AtRest(dev, l, Grown(l, s, target))
    ensures r == Done ==> SupersHold(l, dev.medium.durable, Grown(l, s, target).super) && DescsHold(l, dev.medium.durable, Grown(l, s, target).free)
  {
    hide Guarded, Guards, Readable, ClearBits, AllBits, FixedIn, StoredFree, SupersHold, DescsHold, Changed;
    var now := StateOf(dev.medium.durable);
    if !now.super.clean || target <= now.super.blocks || target > deviceBlocks || target > l.groupStart + l.perGroup { return Refused; }
    var free := Growable(now.bits, now.super.blocks, target, l.groupStart, desc, tableBlocks);
    if !free { return Refused; }
    var dirty := now.super.(clean := false);
    var ok := WriteSuperCopies(dev, l, dirty, s);
    if !ok { return Failed; }
    r := GrowGroup(dev, l, target, now, verifyAfter, s);
  }

  /** The new bits, the counts and the size, from a filesystem marked dirty to one marked clean. */
  method GrowGroup(dev: Device<Key, Value>, l: Layout, target: nat, now: State, verifyAfter: bool, ghost s: State) returns (r: Outcome)
    requires now == s && AtRest(dev, l, s.(super := s.super.(clean := false))) && Agree(l, s) && CountsFit(l) && s.super.free + l.perGroup <= MAX64
    requires s.super.blocks < target <= l.groupStart + l.perGroup && BeyondSet(l, s, target)
    modifies dev
    ensures dev.failed == (old(dev.failed) || r == Failed)
    ensures Guards(l, dev.trace) && r in {Done, Failed}
    ensures r == Done ==> AtRest(dev, l, Grown(l, s, target)) && SupersHold(l, dev.medium.durable, Grown(l, s, target).super) && DescsHold(l, dev.medium.durable, Grown(l, s, target).free)
  {
    hide SupersHold, DescsHold, Changed;
    hide Guarded, Guards, Readable, ClearBits, AllBits, StoredFree;
    var dirty := now.super.(clean := false);
    var added := target - now.super.blocks;
    GrownFits(l, s, target);
    GrowAgrees(l, s, target);
    if now.free + added > 0xFFFF_FFFF { return Overflow; }
    var bm := new bool[|now.bits|](i requires 0 <= i < |now.bits| => now.bits[i]);
    assert bm[..] == now.bits;
    ClearRange(bm, now.super.blocks - l.groupStart, target - l.groupStart);
    var ok := WriteGroup(dev, l, bm[..], StoredFree(l, now.free + added), s.(super := dirty));
    if !ok { return Failed; }
    if now.super.free > MAX64 - added { return Overflow; }
    var next := dirty.(blocks := target, free := now.super.free + added);
    ghost var mid := State(bm[..], now.free + added, dirty);
    r := WriteResized(dev, l, next, verifyAfter, mid);
  }

  // ---------- an interrupted shrink ----------

  /** What readiness demands of the filesystem it finds. */
  ghost predicate Ready(l: Layout, t: State, target: nat, descs: seq<GroupDesc>, tableBlocks: nat) {
    l.groupStart < target < t.super.blocks && TailClear(l, t, target) && NoneFixed(descs, tableBlocks, target, t.super.blocks)
  }

  /** Ready means that the target cuts into the last group and no block beyond it is allocated or holds metadata. */
  lemma ReadyMeans(l: Layout, t: State, target: nat, descs: seq<GroupDesc>, tableBlocks: nat)
    requires Shaped(l, t)
    ensures Ready(l, t, target, descs, tableBlocks) <==>
      && l.groupStart < target < t.super.blocks
      && (forall i :: target - l.groupStart <= i < t.super.blocks - l.groupStart ==> !t.bits[i])
      && (forall b: nat :: IsFixed(descs, tableBlocks, b) ==> b < target || b >= t.super.blocks)
  {
    hide IsFixed;
  }

  /** A crash during the group update leaves the bitmap as it was, shrunk, or torn. */
  lemma GroupCrash(l: Layout, m: Medium<Key, Value>, s: State, bits: seq<bool>, free: nat, n: nat, img: DiskImage)
    requires Readable(m.durable) && StateOf(m.durable) == s && n <= |l.backups| + 2 && m.pending == GroupWrites(l, bits, free)[..n]
    requires CrashImage(m, img) && Readable(img)
    ensures StateOf(img).super == s.super && (StateOf(img).bits == s.bits || StateOf(img).bits == bits)
  {
    assert Survives(m, SuperCell, img[SuperCell]) && Survives(m, BitmapCell, img[BitmapCell]);
    assert !Written(m, SuperCell);
  }

  /**
   A shrink cut short in its group update can be run again exactly when the shrunk bitmap has not
   landed and the journal has been brought back to a phase that admits it. Its own checkpoint has
   put the journal into metadata_finalize, which does not.
   */
  lemma InterruptedShrink(l: Layout, m: Medium<Key, Value>, s: State, target: nat, free: nat, n: nat, img: DiskImage,
                          descs: seq<GroupDesc>, tableBlocks: nat)
    requires Shaped(l, s) && Ready(l, s, target, descs, tableBlocks)
    requires Readable(m.durable) && StateOf(m.durable) == s.(super := s.super.(clean := false)) && n <= |l.backups| + 2
    requires m.pending == GroupWrites(l, Fill(s.bits, target - l.groupStart, s.super.blocks - l.groupStart, true), free)[..n]
    requires CrashImage(m, img) && Readable(img)
    ensures Ready(l, StateOf(img), target, descs, tableBlocks) <==> StateOf(img).bits == s.bits
    ensures !ShrinkPhase(J.MetadataFinalize)
  {
    hide NoneFixed, Readable, CrashImage, GroupWrites;
    var bits := Fill(s.bits, target - l.groupStart, s.super.blocks - l.groupStart, true);
    GroupCrash(l, m, s.(super := s.super.(clean := false)), bits, free, n, img);
    assert bits[target - l.groupStart] && !s.bits[target - l.groupStart];
  }

  // ---------- which groups hold backups ----------

  ghost predicate PowerOf(n: nat, base: nat) {
    exists k: nat :: n == Pow(base, k)
  }

  /** is_power. */
  method IsPower(n: nat, base: nat) returns (r: bool)
    requires base > 1
    ensures r <==> PowerOf(n, base)
  {
    if n < 1 {
      assert forall k: nat :: Pow(base, k) > 0;
      return false;
    }
    var m := n;
    ghost var j: nat := 0;
    while m % base == 0
      invariant m >= 1 && n == m * Pow(base, j)
      decreases m
    {
      DivExact(m, base, Pow(base, j));
      m := m / base;
      j := j + 1;
    }
    r := m == 1;
    if r {
      assert n == Pow(base, j);
    } else {
      forall k: nat ensures n != Pow(base, k) { NotPower(m, base, j, k); }
    }
  }

  lemma Regroup(q: nat, base: nat, p: nat)
    ensures (q * base) * p == q * (base * p)
  {
  }

  /** A number that is not 1 and not a multiple of the base stays no power after multiplying by the base. */
  lemma {:induction false} NotPower(m: nat, base: nat, j: nat, k: nat)
    requires base > 1 && m > 1 && m % base != 0
    ensures m * Pow(base, j) != Pow(base, k)
    decreases j
  {
    if j == 0 {
      if k > 0 && m == Pow(base, k) { Multiple(base, Pow(base, k - 1)); }
    } else if k == 0 {
      Larger(m, Pow(base, j));
    } else {
      NotPower(m, base, j - 1, k - 1);
      var a, b := m * Pow(base, j - 1), Pow(base, k - 1);
      assert m * Pow(base, j) == base * a by { Swap(m, base, Pow(base, j - 1)); }
      Cancel(base, a, b);
    }
  }

  lemma Multiple(base: nat, q: nat)
    requires base > 0
    ensures (base * q) % base == 0
  {
    DivMod(q, base, 0);
  }

  lemma DivExact(m: nat, base: nat, p: nat)
    requires base > 1 && m >= 1 && m % base == 0
    ensures 1 <= m / base < m && m * p == (m / base) * (base * p)
  {
    var q := m / base;
    Quotient(m, base);
    QuotientSmaller(q, base);
    Regroup(q, base, p);
  }

  lemma Quotient(m: nat, base: nat)
    requires base > 0 && m % base == 0
    ensures m == (m / base) * base
  {
  }

  lemma QuotientSmaller(q: nat, base: nat)
    requires base > 1
    ensures q >= 1 ==> q < q * base
  {
  }

  lemma Larger(m: nat, p: nat)
    requires m > 1 && p >= 1
    ensures m * p != 1
  {
  }

  lemma Swap(m: nat, base: nat, p: nat)
    ensures m * (base * p) == base * (m * p)
  {
  }

  lemma Cancel(base: nat, a: nat, b: nat)
    requires base > 0 && a != b
    ensures base * a != base * b
  {
  }

  /** Powers of 3, 5 and 7, among them 1. */
  ghost predicate SparseGroup(group: nat) {
    PowerOf(group, 3) || PowerOf(group, 5) || PowerOf(group, 7)
  }

  /** group_has_super, for the three layouts of backup superblocks. */
  method GroupHasSuper(sparse2: bool, a: nat, b: nat, sparse: bool, group: nat) returns (r: bool)
    ensures r <==> (group == 0 || (if sparse2 then group == a || group == b else (!sparse || SparseGroup(group))))
  {
    if group == 0 { return true; }
    if sparse2 { return group == a || group == b; }
    if !sparse { return true; }
    if group == 1 {
      assert group == Pow(3, 0) && PowerOf(group, 3);
      return true;
    }
    r := IsPower(group, 3);
    if !r { r := IsPower(group, 5); }
    if !r { r := IsPower(group, 7); }
  }
}
