/** Blocks that hold a group's bitmaps and inode table and cannot be moved (src/ext4/relocate.cpp, src/ext4/resize.cpp). */
module FixedMetadata {

  datatype GroupDesc = GroupDesc(blockBitmap: nat, inodeBitmap: nat, inodeTable: nat)

  /** The block holds one of the group's bitmaps or a part of its inode table. */
  predicate FixedIn(d: GroupDesc, tableBlocks: nat, b: nat) {
    b == d.blockBitmap || b == d.inodeBitmap || d.inodeTable <= b < d.inodeTable + tableBlocks
  }

  predicate IsFixed(ds: seq<GroupDesc>, tableBlocks: nat, b: nat) {
    exists g :: 0 <= g < |ds| && FixedIn(ds[g], tableBlocks, b)
  }

  /** Of `n` blocks from `start`, those in [target, end). */
  function Overlap(start: nat, n: nat, target: nat, end: nat): nat {
    var a := if start > target then start else target;
    var z := if start + n < end then start + n else end;
    if z > a then z - a else 0
  }

  function GroupAbove(d: GroupDesc, tableBlocks: nat, target: nat, end: nat): nat {
    Overlap(d.blockBitmap, 1, target, end) + Overlap(d.inodeBitmap, 1, target, end) + Overlap(d.inodeTable, tableBlocks, target, end)
  }

  /** Fixed blocks in [target, end), counted group by group. */
  function FixedAbove(ds: seq<GroupDesc>, tableBlocks: nat, target: nat, end: nat): nat {
    if ds == [] then 0 else FixedAbove(ds[..|ds| - 1], tableBlocks, target, end) + GroupAbove(ds[|ds| - 1], tableBlocks, target, end)
  }

  predicate InBoth(b: nat, start: nat, n: nat, target: nat, end: nat) {
    start <= b < start + n && target <= b < end
  }

  ghost function Common(start: nat, n: nat, target: nat, end: nat): set<nat> {
    set b | start <= b < start + n && InBoth(b, start, n, target, end)
  }

  /** It is the number of such blocks. */
  lemma {:induction false} OverlapIsCard(start: nat, n: nat, target: nat, end: nat)
    ensures Overlap(start, n, target, end) == |Common(start, n, target, end)|
    decreases n
  {
    var all := Common(start, n, target, end);
    if n == 0 {
      assert all == {};
    } else {
      OverlapIsCard(start, n - 1, target, end);
      var last := start + n - 1;
      var init := Common(start, n - 1, target, end);
      if target <= last < end { assert all == init + {last}; } else { assert all == init; }
    }
  }

  lemma GroupZero(d: GroupDesc, tableBlocks: nat, target: nat, end: nat)
    ensures GroupAbove(d, tableBlocks, target, end) == 0 <==> forall b: nat :: FixedIn(d, tableBlocks, b) && target <= b ==> end <= b
  {
    if GroupAbove(d, tableBlocks, target, end) != 0 {
      var b := if target <= d.blockBitmap < end then d.blockBitmap else if target <= d.inodeBitmap < end then d.inodeBitmap
        else if d.inodeTable > target then d.inodeTable else target;
      assert FixedIn(d, tableBlocks, b) && target <= b < end;
    }
  }

  /** The count is zero exactly when no fixed block lies in the range. */
  lemma {:induction false} NothingFixedAbove(ds: seq<GroupDesc>, tableBlocks: nat, target: nat, end: nat)
    ensures FixedAbove(ds, tableBlocks, target, end) == 0 <==> forall b: nat :: IsFixed(ds, tableBlocks, b) && target <= b ==> end <= b
    decreases |ds|
  {
    hide FixedIn, GroupAbove;
    if ds != [] {
      var n := |ds| - 1;
      var init := ds[..n];
      NothingFixedAbove(init, tableBlocks, target, end);
      GroupZero(ds[n], tableBlocks, target, end);
      forall b: nat ensures IsFixed(ds, tableBlocks, b) <==> IsFixed(init, tableBlocks, b) || FixedIn(ds[n], tableBlocks, b) {
        if IsFixed(init, tableBlocks, b) {
          var g :| 0 <= g < |init| && FixedIn(init[g], tableBlocks, b);
          assert ds[g] == init[g];
        }
        if IsFixed(ds, tableBlocks, b) {
          var g :| 0 <= g < |ds| && FixedIn(ds[g], tableBlocks, b);
          assert g < n ==> init[g] == ds[g];
        }
      }
    }
  }

  method CountGroup(d: GroupDesc, tableBlocks: nat, target: nat, end: nat) returns (n: nat)
    ensures n == GroupAbove(d, tableBlocks, target, end)
  {
    n := 0;
    if target <= d.blockBitmap < end { n := n + 1; }
    if target <= d.inodeBitmap < end { n := n + 1; }
    var a := if d.inodeTable > target then d.inodeTable else target;
    var z := if d.inodeTable + tableBlocks < end then d.inodeTable + tableBlocks else end;
    if z > a { n := n + (z - a); }
  }

  /** The group loop of the planner and of the shrink check. */
  method CountFixed(ds: seq<GroupDesc>, tableBlocks: nat, target: nat, end: nat) returns (n: nat)
    ensures n == FixedAbove(ds, tableBlocks, target, end)
    ensures n == 0 <==> forall b: nat :: IsFixed(ds, tableBlocks, b) && target <= b ==> end <= b
  {
    hide GroupAbove, FixedIn;
    n := 0;
    for g := 0 to |ds|
      invariant n == FixedAbove(ds[..g], tableBlocks, target, end)
    {
      assert ds[..g + 1][..g] == ds[..g];
      var m := CountGroup(ds[g], tableBlocks, target, end);
      n := n + m;
    }
    assert ds[..|ds|] == ds;
    NothingFixedAbove(ds, tableBlocks, target, end);
  }
}
