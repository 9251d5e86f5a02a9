/**
 The whole commit: mark dirty, every move in order, verify, mark clean; and any number of runs cut
 short by crashes.
 */
module CommitRun {
  import opened ExtentTree
  import opened Relocation
  import opened CommitDisk
  import opened Commit
  import J = Journal
  import V = Validate

  // ---------- conservation of free space ----------

  lemma {:induction false} RangeSize(start: nat, n: nat)
    ensures |Range(start, n)| == n
    decreases n
  {
    if n == 0 {
      assert Range(start, n) == {};
    } else {
      RangeSize(start, n - 1);
      assert Range(start, n) == Range(start, n - 1) + {start + n - 1};
    }
  }

  ghost function UsedAfter(p: Plan, k: nat): set<nat>
    requires k <= |p.moves|
  {
    if k == 0 then p.allocated0 else After(UsedAfter(p, k - 1), p.moves[k - 1])
  }

  lemma {:induction false} UsedAfterStatus(p: Plan, k: nat, j: nat)
    requires Planned(p) && k <= |p.moves| && j < |p.moves|
    ensures var m := p.moves[j];
      if j < k then Clear(UsedAfter(p, k), m.source, m.count) && Full(UsedAfter(p, k), m.destination, m.count)
      else Full(UsedAfter(p, k), m.source, m.count) && Clear(UsedAfter(p, k), m.destination, m.count)
    decreases k
  {
    hide Planned;
    MovesApart(p, j, j);
    if k == 0 {
      InitialStatus(p, j);
    } else {
      UsedAfterStatus(p, k - 1, j);
      MovesApart(p, j, k - 1);
      MovesApart(p, k - 1, j);
    }
  }

  lemma InitialStatus(p: Plan, j: nat)
    requires Planned(p) && j < |p.moves|
    ensures Full(p.allocated0, p.moves[j].source, p.moves[j].count)
    ensures Clear(p.allocated0, p.moves[j].destination, p.moves[j].count)
  {
    hide IsOwner;
    MoveFacts(p, j);
    OwnerUsed(p, p.owners[j]);
  }

  lemma {:induction false} UsedAfterOutside(p: Plan, k: nat, b: nat)
    requires k <= |p.moves|
    requires forall i :: 0 <= i < k ==> !InRange(b, p.moves[i].source, p.moves[i].count) && !InRange(b, p.moves[i].destination, p.moves[i].count)
    ensures b in UsedAfter(p, k) <==> b in p.allocated0
    decreases k
  {
    if k > 0 { UsedAfterOutside(p, k - 1, b); }
  }

  lemma RelocatedIsUsedAfter(p: Plan, used: set<nat>)
    requires Planned(p) && Relocated(p, used)
    ensures used == UsedAfter(p, |p.moves|)
  {
    hide Planned;
    var n := |p.moves|;
    forall b ensures b in used <==> b in UsedAfter(p, n) {
      if InDestination(p, b) {
        var i :| 0 <= i < n && InRange(b, p.moves[i].destination, p.moves[i].count);
        UsedAfterStatus(p, n, i);
        assert b in Range(p.moves[i].destination, p.moves[i].count);
      } else if InSource(p, b) {
        var i :| 0 <= i < n && InRange(b, p.moves[i].source, p.moves[i].count);
        UsedAfterStatus(p, n, i);
        assert b in Range(p.moves[i].source, p.moves[i].count);
      } else {
        UsedAfterOutside(p, n, b);
      }
    }
  }

  lemma SwapKeepsFree(geo: Geometry, used: set<nat>, m: OwnerMove)
    requires GeometryOk(geo) && geo.firstData <= m.source && m.source + m.count <= geo.blocks
    requires geo.firstData <= m.destination && m.destination + m.count <= geo.blocks
    requires Full(used, m.source, m.count) && Clear(used, m.destination, m.count)
    ensures TotalFree(geo, After(used, m)) == TotalFree(geo, used)
  {
    var all := Range(geo.firstData, geo.blocks - geo.firstData);
    var src, dst := Range(m.source, m.count), Range(m.destination, m.count);
    RangeSize(m.source, m.count);
    RangeSize(m.destination, m.count);
    assert src <= all && dst <= all;
    SwapCard(all, used, src, dst);
  }

  lemma SwapCard(all: set<nat>, used: set<nat>, src: set<nat>, dst: set<nat>)
    requires src <= all && dst <= all && src <= used && dst !! used && |src| == |dst|
    ensures |all - (used + dst - src)| == |all - used|
  {
    var rest := (all - used) - dst;
    assert all - used == rest + dst;
    assert all - (used + dst - src) == rest + src;
    assert rest !! dst && rest !! src;
  }

  lemma {:induction false} FreeConserved(p: Plan, geo: Geometry, k: nat)
    requires Planned(p) && GeometryOk(geo) && geo.blocks == p.fs0.blocksCount && k <= |p.moves|
    ensures TotalFree(geo, UsedAfter(p, k)) == TotalFree(geo, p.allocated0)
    decreases k
  {
    hide Planned, TotalFree, Range;
    if k > 0 {
      FreeConserved(p, geo, k - 1);
      UsedAfterStatus(p, k - 1, k - 1);
      MoveInside(p, k - 1);
      SwapKeepsFree(geo, UsedAfter(p, k - 1), p.moves[k - 1]);
    }
  }

  lemma MoveInside(p: Plan, i: nat)
    requires Planned(p) && i < |p.moves|
    ensures var m := p.moves[i];
      && 0 < m.source && m.source + m.count <= p.fs0.blocksCount
      && 0 < m.destination && m.destination + m.count <= p.fs0.blocksCount
  {
    hide IsOwner, ScanInode, InTree;
    MoveFacts(p, i);
    OwnerFacts(p.fs0, p.owners[i]);
  }

  /** A finished relocation has as many free blocks as before it started. */
  lemma RelocationConservesFree(p: Plan, geo: Geometry, used: set<nat>)
    requires Planned(p) && GeometryOk(geo) && geo.blocks == p.fs0.blocksCount && Relocated(p, used)
    ensures TotalFree(geo, used) == TotalFree(geo, p.allocated0)
  {
    hide Planned, TotalFree, Relocated;
    RelocatedIsUsedAfter(p, used);
    FreeConserved(p, geo, |p.moves|);
  }

  // ---------- the commit ----------

  datatype CommitResult = Complete | Paused | Broken | Rejected(why: Refusal) | Unverified

  /** The disk a run may start from: some stage of the plan, at rest and readable. */
  ghost predicate Resumable(dev: FsDevice, p: Plan, geo: Geometry, rho: Moves)
    reads dev
  {
    && GeometryOk(geo) && geo.blocks == p.fs0.blocksCount
    && dev.durable == dev.view && dev.view.super.Super?
    && Safe(p, rho, dev.view.fs, dev.view.used) && Undamaged(p, rho, dev.view.fs)
    && (dev.view.super.clean ==> CountsAgree(geo, dev.view))
    && Guards(p, geo, dev.trace)
  }

  /** Some move still has to change a bitmap of the group. */
  ghost predicate Renews(geo: Geometry, used: set<nat>, moves: seq<OwnerMove>, g: nat)
    requires GeometryOk(geo)
  {
    exists i :: 0 <= i < |moves| && g in MoveGroups(geo, used, moves[i])
  }

  /**
   The counters found will agree once the plan is finished: the superblock count is that of the start,
   and every group agrees already or will be rewritten.
   */
  ghost predicate ComesRight(p: Plan, geo: Geometry, d: Disk)
    requires GeometryOk(geo)
  {
    && d.super.Super? && d.super.free == TotalFree(geo, p.allocated0)
    && forall g :: 0 <= g < Groups(geo) ==> g in GoodGroups(geo, d) || Renews(geo, d.used, p.moves, g)
  }

  /** Every bitmap the moves still have to change belongs to its descriptor. */
  ghost predicate StagesSealed(geo: Geometry, d: Disk, moves: seq<OwnerMove>)
    requires GeometryOk(geo)
  {
    forall i :: 0 <= i < |moves| ==> MoveGroups(geo, d.used, moves[i]) <= SealedGroups(geo, d)
  }

  lemma AgreeingComesRight(p: Plan, geo: Geometry, d: Disk)
    requires GeometryOk(geo) && CountsAgree(geo, d) && TotalFree(geo, d.used) == TotalFree(geo, p.allocated0)
    ensures ComesRight(p, geo, d) && StagesSealed(geo, d, p.moves)
  {
    hide TotalFree, GroupFree, GroupBits, Groups;
    GoodIsSealed(geo, d);
    forall i | 0 <= i < |p.moves| ensures MoveGroups(geo, d.used, p.moves[i]) <= SealedGroups(geo, d) {
      assert Touched(geo, p.moves[i].source, p.moves[i].count) <= GoodGroups(geo, d);
      assert Touched(geo, p.moves[i].destination, p.moves[i].count) <= GoodGroups(geo, d);
    }
  }

  /** Since `before`, no owner pointer and no allocation bit of the disk `d` has been written. */
  ghost predicate OwnersKept(before: seq<(Disk, Disk)>, after: seq<(Disk, Disk)>, d: Disk) {
    && |before| <= |after|
    && forall k :: |before| <= k < |after| ==> after[k].0.fs == after[k].1.fs == d.fs && after[k].0.used == after[k].1.used == d.used
  }

  /** mark_filesystem_state. A clean mark is honest exactly if the counts agree. */
  method MarkState(dev: FsDevice, geo: Geometry, clean: bool, ghost p: Plan, ghost rho: Moves) returns (ok: bool)
    requires Resumable(dev, p, geo, rho)
    modifies dev
    ensures Shields(p, dev.trace) && dev.failed == (old(dev.failed) || !ok)
    ensures (clean ==> CountsAgree(geo, old(dev.view))) ==> Guards(p, geo, dev.trace) && (ok ==> Resumable(dev, p, geo, rho))
    ensures OwnersKept(old(dev.trace), dev.trace, old(dev.view))
    ensures ok ==> dev.durable == dev.view == old(dev.view).(super := old(dev.view).super.(clean := clean))
  {
    hide Safe, Undamaged, Guarded, Shielded, TotalFree, GroupOk, Groups;
    ghost var d := dev.view;
    var s := dev.view.super.(clean := clean);
    ghost var v := d.(super := s);
    GuardsShield(p, geo, dev.trace);
    SuperShielded(p, rho, d, v);
    SuperShielded(p, rho, v, v);
    assert CountsAgree(geo, v) <==> CountsAgree(geo, d) by { SameCounts(geo, d, v); }
    if clean ==> CountsAgree(geo, d) {
      SuperGuarded(p, geo, rho, d, v);
      RestGuarded(p, geo, rho, v);
    }
    ok := dev.WriteSuper(s);
    if !ok { return; }
    ok := dev.Flush();
  }

  lemma SameCounts(geo: Geometry, a: Disk, b: Disk)
    requires GeometryOk(geo) && a.used == b.used && a.groups == b.groups && a.super.Super? && b.super.Super? && a.super.free == b.super.free
    ensures CountsAgree(geo, a) <==> CountsAgree(geo, b)
  {
    hide Groups, GroupFree, GroupBits, TotalFree;
    forall g: nat ensures GroupOk(geo, a, g) <==> GroupOk(geo, b, g) {
    }
  }

  /** Moves of `order[..k]` are finished, the others are as the run found them. */
  ghost predicate Progress(p: Plan, rho0: Moves, used0: set<nat>, rho: Moves, used: set<nat>, order: seq<nat>, k: nat)
    requires IsOrder(|p.moves|, order) && k <= |order|
  {
    && (forall j :: 0 <= j < k ==> MoveDone(p, rho, used, order[j]))
    && (forall j :: k <= j < |order| ==> Untouched(p, rho0, used0, rho, used, order[j]))
  }

  lemma ProgressStep(p: Plan, rho0: Moves, used0: set<nat>, rho: Moves, used: set<nat>, order: seq<nat>, k: nat)
    requires Planned(p) && IsOrder(|p.moves|, order) && k < |order|
    requires Progress(p, rho0, used0, rho, used, order, k)
    ensures var m := p.moves[order[k]];
      Progress(p, rho0, used0, rho[m.source := m.destination], After(used, m), order, k + 1)
  {
    hide Planned, MoveDone, Untouched, After;
    var i := order[k];
    var m := p.moves[i];
    forall j | 0 <= j < k + 1 ensures MoveDone(p, rho[m.source := m.destination], After(used, m), order[j]) {
      if j < k { DoneStaysDone(p, rho, used, order[j], i); } else { JustDone(p, rho, used, i); }
    }
    forall j | k + 1 <= j < |order| ensures Untouched(p, rho0, used0, rho[m.source := m.destination], After(used, m), order[j]) {
      UntouchedStays(p, rho0, used0, rho, used, order[j], i);
    }
  }

  lemma JustDone(p: Plan, rho: Moves, used: set<nat>, i: nat)
    requires Planned(p) && i < |p.moves|
    ensures MoveDone(p, rho[p.moves[i].source := p.moves[i].destination], After(used, p.moves[i]), i)
  {
    hide Planned;
    MovesApart(p, i, i);
  }

  /** The records the moves in `order[..k]` leave, given the state the run found. */
  function RunRecords(moves: seq<OwnerMove>, order: seq<nat>, used: set<nat>, switched: set<nat>, k: nat): seq<J.Record>
    requires k <= |order| && forall j :: 0 <= j < |order| ==> order[j] < |moves|
  {
    if k == 0 then []
    else
      var m := moves[order[k - 1]];
      RunRecords(moves, order, used, switched, k - 1) + StageRecords(used, m, m.source in switched)
  }

  /** What the run found that made it refuse. */
  ghost predicate Justified(p: Plan, geo: Geometry, d: Disk, rho0: Moves, crc: seq<Block> -> nat, sums: seq<nat>, why: Refusal)
    requires |sums| == |p.moves| && GeometryOk(geo)
  {
    match why
    case Inconsistent => !LogicallyApart(p.fs0)
    case Stale => !CopiesFresh(p, rho0, crc, sums)
    case Unsealed => !StagesSealed(geo, d, p.moves)
    case _ => !AllSettled(p, d.used, rho0)
  }

  /** No move still to be switched has a staged copy that changed. */
  ghost predicate CopiesFresh(p: Plan, rho: Moves, crc: seq<Block> -> nat, sums: seq<nat>)
    requires |sums| == |p.moves|
  {
    forall i :: 0 <= i < |p.moves| && p.moves[i].source !in rho ==> !StaleCopy(p.fs0, p.moves[i], crc, sums[i])
  }

  /** No move is half way through a stage. */
  ghost predicate AllSettled(p: Plan, used: set<nat>, rho: Moves) {
    forall i :: 0 <= i < |p.moves| ==> Settled(used, p.moves[i], p.moves[i].source in rho)
  }

  /** Nothing of what a run found stands in its way. */
  ghost predicate Passable(p: Plan, geo: Geometry, d: Disk, rho: Moves, crc: seq<Block> -> nat, sums: seq<nat>)
    requires |sums| == |p.moves| && GeometryOk(geo)
  {
    AllSettled(p, d.used, rho) && CopiesFresh(p, rho, crc, sums) && StagesSealed(geo, d, p.moves)
  }

  /** checkpoint, as the commit sees it. */
  method LogCheckpoint(log: Log, phase: J.Phase) returns (ok: bool)
    modifies log
    ensures log.failed == (old(log.failed) || !ok)
    ensures log.entries == old(log.entries) + [J.CheckpointRecord(J.LastTransaction(old(log.entries)), phase)]
      || (!ok && log.entries == old(log.entries))
  {
    ok := log.Append(J.CheckpointRecord(J.LastTransaction(log.entries), phase));
  }

  /** What a cancelled run leaves in the journal. */
  function PausedAfter(entries: seq<J.Record>): seq<J.Record> {
    entries + [J.CheckpointRecord(J.LastTransaction(entries), J.MetadataPaused)]
  }

  /** The records of some first moves, then the paused checkpoint. */
  ghost predicate PausedWithin(before: seq<J.Record>, after: seq<J.Record>, moves: seq<OwnerMove>, order: seq<nat>, used: set<nat>, switched: set<nat>)
    requires forall j :: 0 <= j < |order| ==> order[j] < |moves|
  {
    exists k: nat :: k < |order| && after == PausedAfter(before + RunRecords(moves, order, used, switched, k))
  }

  /** What was found of one move does not stand in the way. */
  ghost predicate MovePassable(p: Plan, geo: Geometry, d: Disk, rho: Moves, crc: seq<Block> -> nat, sums: seq<nat>, i: nat)
    requires |sums| == |p.moves| && GeometryOk(geo) && i < |p.moves|
  {
    && Settled(d.used, p.moves[i], p.moves[i].source in rho)
    && (p.moves[i].source !in rho ==> !StaleCopy(p.fs0, p.moves[i], crc, sums[i]))
    && MoveGroups(geo, d.used, p.moves[i]) <= SealedGroups(geo, d)
  }

  /** One iteration over the ordered moves of a run that found the disk `d`. */
  method NextMove(dev: FsDevice, log: Log, geo: Geometry, moves: seq<OwnerMove>, crc: seq<Block> -> nat, sums: seq<nat>,
                  order: seq<nat>, k: nat, ghost p: Plan, ghost rho0: Moves, ghost d: Disk, ghost rho: Moves)
    returns (r: CommitResult)
    requires Rest(dev, p, geo, rho) && Trusted(p, crc, sums) && moves == p.moves
    requires |sums| == |moves| && IsOrder(|moves|, order) && k < |order|
    requires Progress(p, rho0, d.used, rho, dev.view.used, order, k) && SealedGroups(geo, dev.view) == SealedGroups(geo, d)
    modifies dev, log
    ensures old(log.entries) <= log.entries
    ensures Guards(p, geo, dev.trace) && Failing(dev.failed, log.failed, old(dev.failed), old(log.failed), r == Broken)
    ensures r == Complete ==> Rest(dev, p, geo, rho[moves[order[k]].source := moves[order[k]].destination])
    ensures r == Complete ==>
      Progress(p, rho0, d.used, rho[moves[order[k]].source := moves[order[k]].destination], dev.view.used, order, k + 1)
    ensures r == Complete ==> dev.view.super == old(dev.view).super && MovePassable(p, geo, d, rho0, crc, sums, order[k])
    ensures r == Complete ==> Renewed(geo, old(dev.view), dev.view, MoveGroups(geo, d.used, moves[order[k]]))
    ensures r == Complete ==>
      log.entries == old(log.entries) + StageRecords(d.used, moves[order[k]], moves[order[k]].source in rho0)
    ensures r.Rejected? ==> Justified(p, geo, d, rho0, crc, sums, r.why)
    ensures r == Paused ==> dev.view == old(dev.view) && log.entries == PausedAfter(old(log.entries))
    ensures r != Unverified
  {
    hide Safe, Undamaged, Guarded, Guards, LogicallyApart, Trusted, MoveDone, Untouched, Touched, SealedGroups, GoodGroups, After, StageRecords, Settled, StaleCopy, Range, Full, Clear, Justified;
    ghost var i := order[k];
    ghost var before := dev.view;
    SafePlanned(p, rho, before.fs, before.used);
    assert Untouched(p, rho0, d.used, rho, before.used, i);
    UntouchedStatus(p, rho0, d.used, rho, before.used, i);
    ProgressStep(p, rho0, d.used, rho, before.used, order, k);
    if p.moves[i].source !in rho { StaleFromStart(p, rho, before.fs, before.used, i, crc, sums[i]); }
    assert MoveGroups(geo, before.used, p.moves[i]) == MoveGroups(geo, d.used, p.moves[i]);
    assert p.moves[i].source in rho <==> p.moves[i].source in rho0 by { UntouchedSwitch(p, rho0, d.used, rho, before.used, i); }
    var cancel := *;
    if cancel {
      var ok := LogCheckpoint(log, J.MetadataPaused);
      return if ok then Paused else Broken;
    }
    var one := CommitMove(dev, log, geo, moves[order[k]], crc, sums[order[k]], p, rho, i, sums);
    match one
    case Failed => r := Broken;
    case Refused(why) =>
      Justify(p, geo, d, rho0, crc, sums, i, why);
      r := Rejected(why);
    case Done => r := Complete;
  }

  /** What was found of one move explains the refusal of the run. */
  lemma Justify(p: Plan, geo: Geometry, d: Disk, rho: Moves, crc: seq<Block> -> nat, sums: seq<nat>, i: nat, why: Refusal)
    requires |sums| == |p.moves| && GeometryOk(geo) && i < |p.moves|
    requires match why
      case Inconsistent => !LogicallyApart(p.fs0)
      case Stale => p.moves[i].source !in rho && StaleCopy(p.fs0, p.moves[i], crc, sums[i])
      case Unsealed => !(MoveGroups(geo, d.used, p.moves[i]) <= SealedGroups(geo, d))
      case _ => !Settled(d.used, p.moves[i], p.moves[i].source in rho)
    ensures Justified(p, geo, d, rho, crc, sums, why)
  {
    hide LogicallyApart, StaleCopy, MoveGroups, SealedGroups, Settled;
  }

  lemma UntouchedSwitch(p: Plan, rho0: Moves, used0: set<nat>, rho: Moves, used: set<nat>, i: nat)
    requires i < |p.moves| && Untouched(p, rho0, used0, rho, used, i)
    ensures p.moves[i].source in rho <==> p.moves[i].source in rho0
  {
  }

  /** One of the first `k` moves still had to change a bitmap of the group. */
  ghost predicate RenewedUpTo(geo: Geometry, used: set<nat>, moves: seq<OwnerMove>, order: seq<nat>, k: nat, g: nat)
    requires GeometryOk(geo) && k <= |order| && forall j :: 0 <= j < |order| ==> order[j] < |moves|
  {
    exists j :: 0 <= j < k && g in MoveGroups(geo, used, moves[order[j]])
  }

  /** Exactly the groups of those moves have been renewed. */
  ghost predicate GroupsSoFar(geo: Geometry, d: Disk, v: Disk, moves: seq<OwnerMove>, order: seq<nat>, k: nat)
    requires GeometryOk(geo) && k <= |order| && forall j :: 0 <= j < |order| ==> order[j] < |moves|
  {
    && SealedGroups(geo, v) == SealedGroups(geo, d)
    && forall g :: g in GoodGroups(geo, v) <==> g in GoodGroups(geo, d) || RenewedUpTo(geo, d.used, moves, order, k, g)
  }

  lemma GroupsStep(geo: Geometry, d: Disk, v: Disk, w: Disk, moves: seq<OwnerMove>, order: seq<nat>, k: nat)
    requires GeometryOk(geo) && k < |order| && forall j :: 0 <= j < |order| ==> order[j] < |moves|
    requires GroupsSoFar(geo, d, v, moves, order, k) && Renewed(geo, v, w, MoveGroups(geo, d.used, moves[order[k]]))
    ensures GroupsSoFar(geo, d, w, moves, order, k + 1)
  {
    hide SealedGroups, GoodGroups, MoveGroups;
    forall g ensures RenewedUpTo(geo, d.used, moves, order, k + 1, g)
      <==> RenewedUpTo(geo, d.used, moves, order, k, g) || g in MoveGroups(geo, d.used, moves[order[k]])
    {
    }
  }

  lemma GroupsAtEnd(geo: Geometry, d: Disk, v: Disk, moves: seq<OwnerMove>, order: seq<nat>)
    requires GeometryOk(geo) && IsOrder(|moves|, order) && GroupsSoFar(geo, d, v, moves, order, |order|)
    ensures forall g :: g in GoodGroups(geo, v) <==> g in GoodGroups(geo, d) || Renews(geo, d.used, moves, g)
  {
    hide SealedGroups, GoodGroups, MoveGroups;
    forall g ensures RenewedUpTo(geo, d.used, moves, order, |order|, g) <==> Renews(geo, d.used, moves, g) {
      if Renews(geo, d.used, moves, g) {
        var i :| 0 <= i < |moves| && g in MoveGroups(geo, d.used, moves[i]);
        assert i in order;
      }
    }
  }

  /** The loop over the ordered moves. */
  method CommitMoves(dev: FsDevice, log: Log, geo: Geometry, moves: seq<OwnerMove>, crc: seq<Block> -> nat, sums: seq<nat>,
                     order: seq<nat>, ghost p: Plan, ghost rho0: Moves)
    returns (r: CommitResult, ghost rho: Moves)
    requires Rest(dev, p, geo, rho0) && Trusted(p, crc, sums) && moves == p.moves
    requires IsOrder(|moves|, order) && |sums| == |moves|
    modifies dev, log
    ensures old(log.entries) <= log.entries
    ensures Guards(p, geo, dev.trace) && Failing(dev.failed, log.failed, old(dev.failed), old(log.failed), r == Broken)
    ensures r == Complete ==> Rest(dev, p, geo, rho) && Relocated(p, dev.view.used)
    ensures r == Complete ==> forall i :: 0 <= i < |moves| ==> MoveDone(p, rho, dev.view.used, i)
    ensures r == Complete ==> dev.view.super == old(dev.view).super && Passable(p, geo, old(dev.view), rho0, crc, sums)
    ensures r == Complete ==>
      forall g :: g in GoodGroups(geo, dev.view) <==> g in GoodGroups(geo, old(dev.view)) || Renews(geo, old(dev.view).used, moves, g)
    ensures r == Complete ==> log.entries == old(log.entries) + RunRecords(moves, order, old(dev.view).used, rho0.Keys, |order|)
    ensures r.Rejected? ==> Justified(p, geo, old(dev.view), rho0, crc, sums, r.why)
    ensures r == Paused ==> PausedWithin(old(log.entries), log.entries, moves, order, old(dev.view).used, rho0.Keys)
    ensures r != Unverified
  {
    hide Safe, Undamaged, Guarded, Guards, LogicallyApart, Trusted, MoveDone, Untouched, GoodGroups, SealedGroups, MoveGroups, StageRecords, Justified, MovePassable, Renewed, GroupsSoFar, Passable, Renews;
    ghost var d := dev.view;
    rho := rho0;
    forall j | 0 <= j < |order| ensures Untouched(p, rho0, d.used, rho0, d.used, order[j]) {
      UntouchedSelf(p, rho0, d.used, order[j]);
    }
    NothingRenewed(geo, d, moves, order);
    for k := 0 to |order|
      invariant Failing(dev.failed, log.failed, old(dev.failed), old(log.failed), false)
      invariant Rest(dev, p, geo, rho) && dev.view.super == old(dev.view).super
      invariant GroupsSoFar(geo, d, dev.view, moves, order, k)
      invariant forall j :: 0 <= j < k ==> MovePassable(p, geo, d, rho0, crc, sums, order[j])
      invariant Progress(p, rho0, d.used, rho, dev.view.used, order, k)
      invariant log.entries == old(log.entries) + RunRecords(moves, order, d.used, rho0.Keys, k)
    {
      ghost var v := dev.view;
      SealsSoFar(geo, d, v, moves, order, k);
      r := NextMove(dev, log, geo, moves, crc, sums, order, k, p, rho0, d, rho);
      if r != Complete { return; }
      GroupsStep(geo, d, v, dev.view, moves, order, k);
      rho := rho[moves[order[k]].source := moves[order[k]].destination];
    }
    forall i | 0 <= i < |moves| ensures MoveDone(p, rho, dev.view.used, i) && MovePassable(p, geo, d, rho0, crc, sums, i) {
      assert i in order;
    }
    AllDone(p, rho, dev.view.fs, dev.view.used);
    AllPassable(p, geo, d, rho0, crc, sums);
    GroupsAtEnd(geo, d, dev.view, moves, order);
    r := Complete;
  }

  lemma NothingRenewed(geo: Geometry, d: Disk, moves: seq<OwnerMove>, order: seq<nat>)
    requires GeometryOk(geo) && forall j :: 0 <= j < |order| ==> order[j] < |moves|
    ensures GroupsSoFar(geo, d, d, moves, order, 0)
  {
  }

  lemma SealsSoFar(geo: Geometry, d: Disk, v: Disk, moves: seq<OwnerMove>, order: seq<nat>, k: nat)
    requires GeometryOk(geo) && k <= |order| && forall j :: 0 <= j < |order| ==> order[j] < |moves|
    requires GroupsSoFar(geo, d, v, moves, order, k)
    ensures SealedGroups(geo, v) == SealedGroups(geo, d)
  {
  }

  lemma AllPassable(p: Plan, geo: Geometry, d: Disk, rho: Moves, crc: seq<Block> -> nat, sums: seq<nat>)
    requires |sums| == |p.moves| && GeometryOk(geo)
    requires forall i :: 0 <= i < |p.moves| ==> MovePassable(p, geo, d, rho, crc, sums, i)
    ensures Passable(p, geo, d, rho, crc, sums)
  {
    hide Settled, StaleCopy, MoveGroups, SealedGroups;
    forall i | 0 <= i < |p.moves|
      ensures Settled(d.used, p.moves[i], p.moves[i].source in rho) && MoveGroups(geo, d.used, p.moves[i]) <= SealedGroups(geo, d)
      ensures p.moves[i].source !in rho ==> !StaleCopy(p.fs0, p.moves[i], crc, sums[i])
    {
      assert MovePassable(p, geo, d, rho, crc, sums, i);
    }
  }

  lemma UntouchedSelf(p: Plan, rho: Moves, used: set<nat>, i: nat)
    requires i < |p.moves|
    ensures Untouched(p, rho, used, rho, used, i)
  {
  }

  /** A copy that was never switched to is what staging left. */
  lemma StaleFromStart(p: Plan, rho: Moves, fs: Fs, used: set<nat>, i: nat, crc: seq<Block> -> nat, sum: nat)
    requires Safe(p, rho, fs, used) && i < |p.moves| && p.moves[i].source !in rho
    ensures StaleCopy(fs, p.moves[i], crc, sum) <==> StaleCopy(p.fs0, p.moves[i], crc, sum)
  {
    hide Planned, Partial, InTree, IsOwner, Holds, Kept, InMoves;
    assert StagedIntact(p, fs, i);
    if p.moves[i].kind == DataExtent { StagedContents(p, fs, i); }
  }

  const NO_MOVE := OwnerMove(DataExtent, 0, 0, 0, 0, 0, 0, false, 0)

  /** Mark the filesystem dirty if it is not, and enter metadata_finalize. */
  method OpenCommit(dev: FsDevice, log: Log, geo: Geometry, ghost p: Plan, ghost rho: Moves) returns (ok: bool)
    requires Resumable(dev, p, geo, rho)
    modifies dev, log
    ensures old(log.entries) <= log.entries
    ensures Guards(p, geo, dev.trace) && Failing(dev.failed, log.failed, old(dev.failed), old(log.failed), !ok)
    ensures OwnersKept(old(dev.trace), dev.trace, old(dev.view))
    ensures log.entries != old(log.entries) ==> Marked(dev.durable, false)
    ensures ok ==> Rest(dev, p, geo, rho) && dev.view == old(dev.view).(super := old(dev.view).super.(clean := false))
    ensures ok ==> log.entries == Opened(old(log.entries), old(dev.view).super.clean) && Entered(old(log.entries), log.entries)
  {
    hide Safe, Undamaged, Guarded, CountsAgree;
    if dev.view.super.clean {
      ok := MarkState(dev, geo, false, p, rho);
      if !ok { return; }
      ok := log.Append(MoveRecord(J.MarkedDirty, NO_MOVE));
      if !ok { return; }
    }
    ok := LogCheckpoint(log, J.MetadataFinalize);
    assert ok ==> log.entries[|log.entries| - 1].aux == J.PhaseCode(J.MetadataFinalize);
  }

  /** The journal has gained the record that says metadata changes begin. */
  ghost predicate Entered(before: seq<J.Record>, after: seq<J.Record>) {
    exists k :: |before| <= k < |after| && after[k].kind == J.Checkpoint && after[k].aux == J.PhaseCode(J.MetadataFinalize)
  }

  lemma EnteredGrows(before: seq<J.Record>, mid: seq<J.Record>, after: seq<J.Record>)
    requires Entered(before, mid) && mid <= after
    ensures Entered(before, after)
  {
    var k :| |before| <= k < |mid| && mid[k].kind == J.Checkpoint && mid[k].aux == J.PhaseCode(J.MetadataFinalize);
    assert after[k] == mid[k];
  }

  function Opened(entries: seq<J.Record>, clean: bool): seq<J.Record> {
    var e := if clean then entries + [MoveRecord(J.MarkedDirty, NO_MOVE)] else entries;
    e + [J.CheckpointRecord(J.LastTransaction(e), J.MetadataFinalize)]
  }

  function Closed(entries: seq<J.Record>, leaveDirty: bool): seq<J.Record> {
    var e := if leaveDirty then entries else entries + [MoveRecord(J.MarkedClean, NO_MOVE)];
    e + [J.CheckpointRecord(J.LastTransaction(e), J.Compacted)]
  }

  /** A checkpoint record makes its phase the last one and leaves the filesystem state alone. */
  lemma CheckpointEnds(rs: seq<J.Record>, transaction: nat, phase: J.Phase)
    ensures var all := rs + [J.CheckpointRecord(transaction, phase)];
      && V.LastPhase(all) == J.PhaseCode(phase) && (V.EndsClean(all) <==> V.EndsClean(rs)) && (V.EndsDirty(all) <==> V.EndsDirty(rs))
  {
    hide V.LastPhase, V.EndsClean, V.EndsDirty, V.WellOrdered, V.Warnings;
    V.Extended(rs, J.CheckpointRecord(transaction, phase));
  }

  lemma ClosedEnds(rs: seq<J.Record>, leaveDirty: bool)
    ensures V.LastPhase(Closed(rs, leaveDirty)) == J.PhaseCode(J.Compacted)
    ensures if leaveDirty then V.EndsDirty(Closed(rs, leaveDirty)) <==> V.EndsDirty(rs) else V.EndsClean(Closed(rs, leaveDirty))
  {
    hide V.LastPhase, V.EndsClean, V.EndsDirty, V.WellOrdered, V.Warnings, J.LastTransaction;
    var r := MoveRecord(J.MarkedClean, NO_MOVE);
    V.Extended(rs, r);
    var e := if leaveDirty then rs else rs + [r];
    CheckpointEnds(e, J.LastTransaction(e), J.Compacted);
  }

  lemma OpenedEnds(rs: seq<J.Record>, clean: bool)
    ensures clean ==> V.EndsDirty(Opened(rs, clean))
  {
    hide V.LastPhase, V.EndsClean, V.EndsDirty, V.WellOrdered, V.Warnings, J.LastTransaction;
    var r := MoveRecord(J.MarkedDirty, NO_MOVE);
    V.Extended(rs, r);
    var e := if clean then rs + [r] else rs;
    CheckpointEnds(e, J.LastTransaction(e), J.MetadataFinalize);
  }

  /** No record speaks of the filesystem state. */
  predicate Silent(rs: seq<J.Record>) {
    forall j :: 0 <= j < |rs| ==> rs[j].kind != J.MarkedDirty && rs[j].kind != J.MarkedClean
  }

  lemma {:induction false} RecordsEnd(rs: seq<J.Record>, more: seq<J.Record>)
    requires Silent(more)
    ensures V.EndsDirty(rs + more) <==> V.EndsDirty(rs)
    decreases |more|
  {
    if more == [] {
      assert rs + more == rs;
    } else {
      var n := |more| - 1;
      RecordsEnd(rs, more[..n]);
      assert (rs + more)[..|rs + more| - 1] == rs + more[..n];
    }
  }

  lemma SilentTogether(a: seq<J.Record>, b: seq<J.Record>)
    requires Silent(a) && Silent(b)
    ensures Silent(a + b)
  {
  }

  lemma EmittedSilent(m: OwnerMove, reserve: bool, switch: bool, release: bool)
    ensures Silent(Emitted(m, reserve, switch, release))
  {
  }

  lemma {:induction false} MovesSilent(moves: seq<OwnerMove>, order: seq<nat>, used: set<nat>, switched: set<nat>, k: nat)
    requires k <= |order| && forall j :: 0 <= j < |order| ==> order[j] < |moves|
    ensures Silent(RunRecords(moves, order, used, switched, k))
    decreases k
  {
    hide Silent, Emitted, Full, Clear;
    if k == 0 {
      assert Silent([]) by { NothingSilent(); }
    } else {
      MovesSilent(moves, order, used, switched, k - 1);
      var m := moves[order[k - 1]];
      EmittedSilent(m, !Full(used, m.destination, m.count), m.source !in switched, !Clear(used, m.source, m.count));
      SilentTogether(RunRecords(moves, order, used, switched, k - 1), StageRecords(used, m, m.source in switched));
    }
  }

  lemma NothingSilent()
    ensures Silent([])
  {
  }

  /** The phase and the filesystem state a finished run leaves in the journal. */
  lemma RunEnds(rs: seq<J.Record>, clean: bool, moves: seq<OwnerMove>, order: seq<nat>, used: set<nat>, switched: set<nat>, leaveDirty: bool)
    requires forall j :: 0 <= j < |order| ==> order[j] < |moves|
    ensures var all := Closed(Opened(rs, clean) + RunRecords(moves, order, used, switched, |order|), leaveDirty);
      && V.LastPhase(all) == J.PhaseCode(J.Compacted) && (!leaveDirty ==> V.EndsClean(all)) && (leaveDirty && clean ==> V.EndsDirty(all))
  {
    hide V.LastPhase, V.EndsClean, V.EndsDirty, Opened, Closed, RunRecords, Silent;
    MovesSilent(moves, order, used, switched, |order|);
    RecordsEnd(Opened(rs, clean), RunRecords(moves, order, used, switched, |order|));
    OpenedEnds(rs, clean);
    ClosedEnds(Opened(rs, clean) + RunRecords(moves, order, used, switched, |order|), leaveDirty);
  }

  lemma PausedEnds(before: seq<J.Record>, after: seq<J.Record>, moves: seq<OwnerMove>, order: seq<nat>, used: set<nat>, switched: set<nat>)
    requires forall j :: 0 <= j < |order| ==> order[j] < |moves|
    requires PausedWithin(before, after, moves, order, used, switched)
    ensures V.LastPhase(after) == J.PhaseCode(J.MetadataPaused)
  {
    hide V.LastPhase, RunRecords, J.LastTransaction;
    var k: nat :| k < |order| && after == PausedAfter(before + RunRecords(moves, order, used, switched, k));
    var e := before + RunRecords(moves, order, used, switched, k);
    CheckpointEnds(e, J.LastTransaction(e), J.MetadataPaused);
  }

  /** Mark the filesystem clean unless told not to, and enter compacted. */
  method CloseCommit(dev: FsDevice, log: Log, geo: Geometry, leaveDirty: bool, ghost p: Plan, ghost rho: Moves) returns (ok: bool)
    requires Rest(dev, p, geo, rho)
    modifies dev, log
    ensures old(log.entries) <= log.entries
    ensures Shields(p, dev.trace) && Failing(dev.failed, log.failed, old(dev.failed), old(log.failed), !ok)
    ensures leaveDirty || CountsAgree(geo, old(dev.view)) ==> Guards(p, geo, dev.trace) && (ok ==> Resumable(dev, p, geo, rho))
    ensures ok ==> dev.view == old(dev.view).(super := old(dev.view).super.(clean := !leaveDirty))
    ensures log.entries != old(log.entries) ==> Marked(dev.durable, !leaveDirty)
    ensures ok ==> log.entries == Closed(old(log.entries), leaveDirty)
  {
    hide Safe, Undamaged, Guarded, Shielded, CountsAgree;
    GuardsShield(p, geo, dev.trace);
    if !leaveDirty {
      ok := MarkState(dev, geo, true, p, rho);
      if !ok { return; }
      ok := log.Append(MoveRecord(J.MarkedClean, NO_MOVE));
      if !ok { return; }
    }
    ok := LogCheckpoint(log, J.Compacted);
  }

  /** Whether the counts agree at the end could be told from what the run found. */
  lemma CountsAtEnd(p: Plan, geo: Geometry, rho: Moves, d: Disk, v: Disk)
    requires GeometryOk(geo) && geo.blocks == p.fs0.blocksCount && Safe(p, rho, v.fs, v.used) && Relocated(p, v.used)
    requires d.super.Super? && v.super.Super? && v.super.free == d.super.free
    requires forall g :: g in GoodGroups(geo, v) <==> g in GoodGroups(geo, d) || Renews(geo, d.used, p.moves, g)
    ensures CountsAgree(geo, v) <==> ComesRight(p, geo, d)
  {
    hide Safe, Relocated, TotalFree, GroupOk, Groups, Renews;
    SafePlanned(p, rho, v.fs, v.used);
    RelocationConservesFree(p, geo, v.used);
    GoodMeans(geo, v);
  }

  lemma GoodMeans(geo: Geometry, v: Disk)
    requires GeometryOk(geo)
    ensures (forall g :: 0 <= g < Groups(geo) ==> GroupOk(geo, v, g)) <==> forall g :: 0 <= g < Groups(geo) ==> g in GoodGroups(geo, v)
  {
    hide GroupOk, Groups;
    forall g: nat | g < Groups(geo) ensures g in GoodGroups(geo, v) <==> GroupOk(geo, v, g) {
    }
  }

  /** Every owner at its destination, destinations allocated, sources free, every file readable as before. */
  ghost predicate Finished(p: Plan, rho: Moves, d: Disk) {
    && Safe(p, rho, d.fs, d.used) && Undamaged(p, rho, d.fs) && Relocated(p, d.used)
    && forall i :: 0 <= i < |p.moves| ==> MoveDone(p, rho, d.used, i)
  }

  /**
   commit_staged_relocation, from the staged state or from any state an earlier run left. No crash
   during the call loses a file, and a clean mark is honest if the counts are verified or were going
   to agree anyway. A run that completes found every move at a stage boundary, with a fresh copy and
   sealed bitmaps; one that found this completes, unless a look-up is ambiguous, the counts are
   verified and wrong, it is cancelled, or a device fails.
   */
  method CommitPlan(dev: FsDevice, log: Log, geo: Geometry, moves: seq<OwnerMove>, crc: seq<Block> -> nat, sums: seq<nat>,
                    verifyAfter: bool, leaveDirty: bool, ghost p: Plan, ghost rho0: Moves)
    returns (r: CommitResult, ghost rho: Moves, ghost order: seq<nat>)
    requires Resumable(dev, p, geo, rho0) && Trusted(p, crc, sums) && moves == p.moves
    requires |sums| == |moves|
    modifies dev, log
    ensures old(log.entries) <= log.entries
    ensures Shields(p, dev.trace) && Failing(dev.failed, log.failed, old(dev.failed), old(log.failed), r == Broken)
    ensures verifyAfter || leaveDirty || ComesRight(p, geo, old(dev.view)) ==>
      Guards(p, geo, dev.trace) && (r == Complete ==> Resumable(dev, p, geo, rho))
    ensures Entered(old(log.entries), log.entries) || OwnersKept(old(dev.trace), dev.trace, old(dev.view))
    ensures IsOrder(|moves|, order) && Ordered(moves, order) && LeavesUp(moves, order)
    ensures r == Complete ==> Finished(p, rho, dev.view) && Marked(dev.view, !leaveDirty)
    ensures r == Complete ==> Passable(p, geo, old(dev.view), rho0, crc, sums)
    ensures r == Complete ==> (CountsAgree(geo, dev.view) <==> ComesRight(p, geo, old(dev.view)))
    ensures r == Complete && verifyAfter ==> ComesRight(p, geo, old(dev.view))
    ensures r == Complete ==> V.LastPhase(log.entries) == J.PhaseCode(J.Compacted)
    ensures r == Complete && !leaveDirty ==> V.EndsClean(log.entries)
    ensures r == Complete && leaveDirty && old(dev.view).super.clean ==> V.EndsDirty(log.entries)
    ensures r == Paused ==> V.LastPhase(log.entries) == J.PhaseCode(J.MetadataPaused)
    ensures r == Complete ==> log.entries == Closed(Opened(old(log.entries), old(dev.view).super.clean)
      + RunRecords(moves, order, old(dev.view).used, rho0.Keys, |order|), leaveDirty)
    ensures r == Paused ==>
      PausedWithin(Opened(old(log.entries), old(dev.view).super.clean), log.entries, moves, order, old(dev.view).used, rho0.Keys)
    ensures r.Rejected? ==> Justified(p, geo, old(dev.view), rho0, crc, sums, r.why)
    ensures r == Unverified ==> verifyAfter && !ComesRight(p, geo, old(dev.view))
  {
    hide Safe, Undamaged, Guarded, Guards, Shields, LogicallyApart, Trusted, MoveDone, Relocated, Justified, Passable, ComesRight, Renews, GoodGroups, Ordered, LeavesUp, IsOrder, CountsAgree, TotalFree, RunRecords, Entered, OwnersKept, Opened, Closed, PausedWithin, V.LastPhase, V.EndsClean, V.EndsDirty;
    rho := rho0;
    var positions := SortMoves(moves);
    order := positions;
    ghost var d := dev.view;
    var ok := OpenCommit(dev, log, geo, p, rho0);
    GuardsShield(p, geo, dev.trace);
    if !ok { return Broken, rho, order; }
    ghost var begun := log.entries;
    ghost var v := dev.view;
    SameFound(p, geo, d, v, rho0, crc, sums);
    r, rho := CommitMoves(dev, log, geo, moves, crc, sums, positions, p, rho0);
    GuardsShield(p, geo, dev.trace);
    EnteredGrows(old(log.entries), begun, log.entries);
    if r == Paused { PausedEnds(begun, log.entries, moves, order, v.used, rho0.Keys); }
    if r != Complete { return; }
    RunEnds(old(log.entries), d.super.clean, moves, order, v.used, rho0.Keys, leaveDirty);
    CountsAtEnd(p, geo, rho, v, dev.view);
    if verifyAfter {
      var agree := CountsAgree(geo, dev.view);
      if !agree { return Unverified, rho, order; }
    }
    ghost var w := dev.view;
    ok := CloseCommit(dev, log, geo, leaveDirty, p, rho);
    EnteredGrows(old(log.entries), begun, log.entries);
    if !ok { return Broken, rho, order; }
    SameCounts(geo, w, dev.view);
  }

  /**
   The commit without its final check, on counters that do not come right: nothing stops it, and it
   marks the filesystem clean although the counts disagree.
   */
  method UncheckedCommit(dev: FsDevice, log: Log, geo: Geometry, moves: seq<OwnerMove>, crc: seq<Block> -> nat, sums: seq<nat>,
                         ghost p: Plan, ghost rho: Moves)
    returns (r: CommitResult)
    requires Resumable(dev, p, geo, rho) && Trusted(p, crc, sums) && moves == p.moves && |sums| == |moves| && !dev.failed && !log.failed
    requires Passable(p, geo, dev.view, rho, crc, sums) && LogicallyApart(p.fs0) && !ComesRight(p, geo, dev.view)
    modifies dev, log
    ensures r == Complete || r == Paused || (r == Broken && (dev.failed || log.failed))
    ensures r == Complete ==> Marked(dev.view, true) && !CountsAgree(geo, dev.view)
  {
    hide LogicallyApart, Trusted, CopiesFresh, AllSettled, StagesSealed, ComesRight, Safe, Undamaged, Guards, Shields, Finished, PausedWithin, CountsAgree, Ordered, RunRecords;
    ghost var rho', order;
    r, rho', order := CommitPlan(dev, log, geo, moves, crc, sums, false, false, p, rho);
  }

  /** The dirty mark changes nothing of what the run found. */
  lemma SameFound(p: Plan, geo: Geometry, d: Disk, v: Disk, rho: Moves, crc: seq<Block> -> nat, sums: seq<nat>)
    requires GeometryOk(geo) && d.super.Super? && v == d.(super := d.super.(clean := false)) && |sums| == |p.moves|
    ensures ComesRight(p, geo, v) <==> ComesRight(p, geo, d)
    ensures Passable(p, geo, v, rho, crc, sums) <==> Passable(p, geo, d, rho, crc, sums)
    ensures forall why :: Justified(p, geo, v, rho, crc, sums, why) <==> Justified(p, geo, d, rho, crc, sums, why)
  {
    hide LogicallyApart, StaleCopy, Settled, MoveGroups, TotalFree, Groups, GoodGroups, SealedGroups;
    SameRenewed(geo, d, v);
  }

  // ---------- after a crash ----------

  ghost predicate Readable(p: Plan, fs: Fs) {
    forall ino :: ino in p.fs0.roots ==> ScanInode(fs, ino).Scan?
  }

  /** A safe disk on which every tree scans has no torn node. */
  lemma ReadableIsUndamaged(p: Plan, rho: Moves, fs: Fs, used: set<nat>)
    requires Safe(p, rho, fs, used) && Readable(p, fs)
    ensures Undamaged(p, rho, fs)
  {
    hide Safe, ScanInode;
    forall ino, l | InTree(p.fs0, ino, l) ensures At(fs, MovedLoc(rho, l)) != Damaged {
      ScannedIsIntact(p, rho, fs, used, ino);
    }
  }

  /** A tree node belongs to one inode only. */
  lemma NodeOfOneInode(p: Plan, rho: Moves, at: Loc, ino: nat, l: Loc, ino': nat, l': Loc)
    requires Planned(p) && Partial(p, rho) && InTree(p.fs0, ino, l) && InTree(p.fs0, ino', l')
    requires MovedLoc(rho, l) == at && MovedLoc(rho, l') == at
    ensures ino == ino'
  {
    hide ScanInode, Partial, IsOwner, Planned, InTree;
    if l != l' { LocsDistinct(p, rho, ino, l, ino', l'); }
    if l.Blk? {
      var v := BlockIsOwned(p.fs0, ino, l.block);
      var w := BlockIsOwned(p.fs0, ino', l.block);
      OwnersApart(p, v, w);
    } else {
      RootIsOwn(p.fs0, ino, l);
      RootIsOwn(p.fs0, ino', l);
    }
  }

  lemma RootIsOwn(fs: Fs, ino: nat, l: Loc)
    requires InTree(fs, ino, l) && l.Root?
    ensures l.ino == ino
  {
  }

  /** With at most one node torn, an inode none of whose nodes is torn reads exactly as at the start. */
  lemma IntactInodeReads(p: Plan, rho: Moves, fs: Fs, used: set<nat>, ino: nat, logical: nat)
    requires Safe(p, rho, fs, used) && ino in p.fs0.roots
    requires forall l :: InTree(p.fs0, ino, l) ==> At(fs, MovedLoc(rho, l)) != Damaged
    ensures Read(fs, ino, logical) == Read(p.fs0, ino, logical)
  {
    hide ScanInode, Holds, Kept, Read, Fits, Planned, Partial, StagedIntact, InMoves;
    SafePlanned(p, rho, fs, used);
    PlannedReads(p, ino);
    var r := ScanInode(p.fs0, ino);
    ScanFits(p, rho, ino);
    assert InTree(p.fs0, ino, Root(ino));
    forall b | b in r.visited ensures Holds(p.fs0, rho, fs, Blk(b)) && BlockAt(fs, Moved(rho, b)) != Damaged {
      assert InTree(p.fs0, ino, Blk(b));
      assert At(fs, MovedLoc(rho, Blk(b))) != Damaged;
    }
    forall o | o in r.extents ensures Kept(p.fs0, rho, fs, o.extent) {
      assert IsOwner(p.fs0, DataOwner(ino, o));
    }
    assert At(fs, MovedLoc(rho, Root(ino))) != Damaged;
    ReadPreserved(p.fs0, fs, rho, ino, logical);
  }

  lemma PlannedReads(p: Plan, ino: nat)
    requires Planned(p) && ino in p.fs0.roots
    ensures ScanInode(p.fs0, ino).Scan?
  {
  }

  /** Whatever the program itself reads during the commit is what was there before it. */
  lemma ViewReads(p: Plan, d: Disk, ino: nat, logical: nat)
    requires SeenWhole(p, d) && ino in p.fs0.roots
    ensures Read(d.fs, ino, logical) == Read(p.fs0, ino, logical)
  {
    hide Safe, Read, ScanInode, Undamaged;
    var rho :| Safe(p, rho, d.fs, d.used) && Undamaged(p, rho, d.fs);
    SafeReads(p, rho, d.fs, d.used, ino, logical);
  }

  /**
   What any acceptable disk gives a reader: all inodes but at most one read exactly as before the
   commit; that one reads the same or not at all, and not at all only while one of its nodes is torn.
   */
  lemma AcceptableReads(p: Plan, geo: Geometry, d: Disk) returns (lost: nat)
    requires Acceptable(p, geo, d)
    ensures forall ino, logical :: ino in p.fs0.roots && ino != lost ==> Read(d.fs, ino, logical) == Read(p.fs0, ino, logical)
    ensures forall logical :: lost in p.fs0.roots ==> Read(d.fs, lost, logical) == Unreadable || Read(d.fs, lost, logical) == Read(p.fs0, lost, logical)
    ensures forall ino, logical :: ino in p.fs0.roots && ScanInode(d.fs, ino).Scan? ==> Read(d.fs, ino, logical) == Read(p.fs0, ino, logical)
  {
    hide Safe, Read, ScanInode, Undamaged, InTree, TornOnlyAt;
    var at :| Reached(p, d, at);
    var rho :| Safe(p, rho, d.fs, d.used) && TornOnlyAt(p, rho, d.fs, at);
    SafePlanned(p, rho, d.fs, d.used);
    lost := TornInode(p, rho, d.fs, at);
    forall ino, logical | ino in p.fs0.roots
      ensures ino != lost ==> Read(d.fs, ino, logical) == Read(p.fs0, ino, logical)
      ensures Read(d.fs, ino, logical) == Unreadable || Read(d.fs, ino, logical) == Read(p.fs0, ino, logical)
      ensures ScanInode(d.fs, ino).Scan? ==> Read(d.fs, ino, logical) == Read(p.fs0, ino, logical)
    {
      if ino != lost { IntactInodeReads(p, rho, d.fs, d.used, ino, logical); }
      SafeReads(p, rho, d.fs, d.used, ino, logical);
      if ScanInode(d.fs, ino).Scan? {
        ScannedIsIntact(p, rho, d.fs, d.used, ino);
        IntactInodeReads(p, rho, d.fs, d.used, ino, logical);
      }
    }
  }

  /** The inode the torn node belongs to, if it belongs to any. */
  lemma TornInode(p: Plan, rho: Moves, fs: Fs, at: Loc) returns (lost: nat)
    requires Planned(p) && Partial(p, rho) && TornOnlyAt(p, rho, fs, at)
    ensures forall ino, l :: InTree(p.fs0, ino, l) && ino != lost ==> At(fs, MovedLoc(rho, l)) != Damaged
  {
    hide InTree, Planned, Partial;
    if ino: nat, l :| InTree(p.fs0, ino, l) && MovedLoc(rho, l) == at {
      lost := ino;
      forall ino', l' | InTree(p.fs0, ino', l') && ino' != lost ensures At(fs, MovedLoc(rho, l')) != Damaged {
        if MovedLoc(rho, l') == at { NodeOfOneInode(p, rho, at, ino, l, ino', l'); }
      }
    } else {
      lost := 0;
    }
  }

  lemma ScannedIsIntact(p: Plan, rho: Moves, fs: Fs, used: set<nat>, ino: nat)
    requires Safe(p, rho, fs, used) && ino in p.fs0.roots && ScanInode(fs, ino).Scan?
    ensures forall l :: InTree(p.fs0, ino, l) ==> At(fs, MovedLoc(rho, l)) != Damaged
  {
    hide Planned, Partial, Kept, StagedIntact, ScanInode, Fits;
    var r := ScanInode(p.fs0, ino);
    SafePlanned(p, rho, fs, used);
    PlannedReads(p, ino);
    ScanFits(p, rho, ino);
    assert InTree(p.fs0, ino, Root(ino));
    forall b | b in r.visited ensures Holds(p.fs0, rho, fs, Blk(b)) {
      assert InTree(p.fs0, ino, Blk(b));
    }
    ScanInodeMoved(p.fs0, fs, rho, ino);
    TreeFacts(fs, ino);
    forall l | InTree(p.fs0, ino, l) ensures At(fs, MovedLoc(rho, l)) != Damaged {
      if l.Blk? {
        assert Moved(rho, l.block) in MovedScan(rho, r).visited;
        assert InTree(fs, ino, Blk(Moved(rho, l.block)));
        NodeIsTree(fs, ino, Blk(Moved(rho, l.block)));
      }
    }
  }

  /**
   A run on what a crash left. It completes only if what it found is passable and its counters come
   right, and then it does, unless a look-up is ambiguous, it is cancelled or a device fails.
   */
  method ResumeCommit(img: Disk, log: Log, geo: Geometry, moves: seq<OwnerMove>, crc: seq<Block> -> nat, sums: seq<nat>,
                      leaveDirty: bool, ghost p: Plan, ghost rho0: Moves)
    returns (dev: FsDevice, r: CommitResult)
    requires Acceptable(p, geo, img) && Safe(p, rho0, img.fs, img.used) && geo.blocks == p.fs0.blocksCount
    requires img.super.Super? && Readable(p, img.fs) && !log.failed
    requires Trusted(p, crc, sums) && moves == p.moves && |sums| == |moves|
    modifies log
    ensures fresh(dev) && Guards(p, geo, dev.trace)
    ensures r == Complete ==> exists rho :: Finished(p, rho, dev.view)
    ensures r == Complete ==> forall ino, logical :: ino in p.fs0.roots ==> Read(dev.view.fs, ino, logical) == Read(p.fs0, ino, logical)
    ensures r == Broken <==> dev.failed || log.failed
    ensures r.Rejected? ==> Justified(p, geo, img, rho0, crc, sums, r.why)
    ensures r == Complete ==> Passable(p, geo, img, rho0, crc, sums) && ComesRight(p, geo, img)
    ensures r == Unverified ==> !ComesRight(p, geo, img)
    ensures Passable(p, geo, img, rho0, crc, sums) && ComesRight(p, geo, img) && LogicallyApart(p.fs0) ==> r == Complete || r == Paused || r == Broken
  {
    hide Safe, Undamaged, Guarded, Shields, LogicallyApart, Trusted, MoveDone, Relocated, Ordered, IsOrder, CountsAgree, TotalFree, RunRecords, Read, Readable, ComesRight, AllSettled, CopiesFresh, StagesSealed, Opened, Closed, PausedWithin;
    ReadableIsUndamaged(p, rho0, img.fs, img.used);
    RestGuarded(p, geo, rho0, img);
    dev := new FsDevice(img);
    ghost var rho: Moves, order: seq<nat>;
    r, rho, order := CommitPlan(dev, log, geo, moves, crc, sums, true, leaveDirty, p, rho0);
    if r == Complete {
      assert Finished(p, rho, dev.view);
      forall ino, logical | ino in p.fs0.roots ensures Read(dev.view.fs, ino, logical) == Read(p.fs0, ino, logical) {
        SafeReads(p, rho, dev.view.fs, dev.view.used, ino, logical);
      }
    }
  }

  // ---------- a descriptor that lags behind its bitmap ----------

  /**
   A crash while a destination is reserved may keep the bitmap and lose the descriptor. The image is
   one of those the crash theorem allows, the move is found at a stage boundary, and yet, where bitmaps
   carry checksums and the source lies in the same group, no later run can complete.
   */
  lemma LaggingDescriptor(geo: Geometry, d: Disk, m: OwnerMove, g: nat, p: Plan, rho: Moves, crc: seq<Block> -> nat, sums: seq<nat>, i: nat)
    requires GeometryOk(geo) && g < Groups(geo) && m.count > 0 && |sums| == |p.moves| && i < |p.moves| && p.moves[i] == m && m.source !in rho
    requires GroupStart(geo, g) <= m.source && m.source + m.count <= GroupStart(geo, g) + GroupCount(geo, g)
    requires GroupStart(geo, g) <= m.destination && m.destination + m.count <= GroupStart(geo, g) + GroupCount(geo, g)
    requires g in d.groups && GroupOk(geo, d, g) && Full(d.used, m.source, m.count)
    requires var v := Reserved(geo, d, m, g); geo.bitmapSum(GroupBits(geo, v.used, g)) != geo.bitmapSum(GroupBits(geo, d.used, g))
    ensures var v := Reserved(geo, d, m, g);
      var img := d.(used := v.used);
      && CrashDisk(d, v, img) && Settled(img.used, m, false) && !Passable(p, geo, img, rho, crc, sums)
  {
    hide Groups, GroupFree, GroupBits, StaleCopy;
    var v := Reserved(geo, d, m, g);
    var img := d.(used := v.used);
    assert m.source in Range(m.source, m.count);
    assert g in Touched(geo, m.source, m.count);
    assert g in MoveGroups(geo, img.used, m) && g !in SealedGroups(geo, img);
    assert CrashDisk(d, v, img) by {
      forall l ensures SurvivesBlock(At(d.fs, l), At(v.fs, l), At(img.fs, l)) {
      }
    }
  }

  /** The disk a completed reservation inside group `g` would leave. */
  ghost function Reserved(geo: Geometry, d: Disk, m: OwnerMove, g: nat): Disk {
    var used := d.used + Range(m.destination, m.count);
    d.(used := used, groups := d.groups[g := DescOf(geo, used, g)])
  }
}
