/**
 stage_relocation of src/ext4/relocate.cpp with its disk and its journal together: intents, batches
 of copies that are flushed and read back before their records, and resuming an earlier staging.
 */
module StageRun {
  import opened Options
  import opened Arithmetic
  import opened Journal
  import opened Validate
  import opened Relocation
  import opened Staging
  import opened History
  import E = ExtentTree
  import D = CommitDisk
  import C = Commit
  import R = CommitRun

  // ---------- the records ----------

  function Intents(moves: seq<OwnerMove>, n: nat): (r: seq<Record>)
    requires n <= |moves|
    ensures |r| == n
  {
    seq(n, i requires 0 <= i < n => C.MoveRecord(RelocationIntent, moves[i]))
  }

  lemma {:induction false} IntentsFit(moves: seq<OwnerMove>, n: nat)
    requires Identified(moves) && n <= |moves|
    ensures WellOrdered(Intents(moves, n))
    ensures forall i :: 0 <= i < n ==> Intended(Intents(moves, n), moves[i])
    ensures forall i :: n <= i < |moves| ==> IntentOf(Intents(moves, n), moves[i].transaction).None?
    decreases n
  {
    hide Intended, WellOrdered, InOrder, Seen;
    if n == 0 {
      NothingOrdered();
    } else {
      IntentsFit(moves, n - 1);
      var before, r := Intents(moves, n - 1), C.MoveRecord(RelocationIntent, moves[n - 1]);
      assert Intents(moves, n) == before + [r];
      IntentFits(before, moves[n - 1]);
      forall i | 0 <= i < n - 1 ensures Intended(Intents(moves, n), moves[i]) { IntendedAppend(before, r, moves[i]); }
      forall i | n <= i < |moves| ensures IntentOf(Intents(moves, n), moves[i].transaction).None? {
        IntentAppend(before, r, moves[i].transaction);
      }
    }
  }

  /** Every verified record carries the checksum of its move's source. */
  ghost predicate SumsOfSource(p: Plan, crc: seq<E.Block> -> nat, rs: seq<Record>) {
    forall k, i :: 0 <= k < |rs| && 0 <= i < |p.moves| && rs[k].kind == CopyVerified && rs[k].transaction == p.moves[i].transaction ==>
      rs[k].crc == SourceSum(p, crc, p.moves[i])
  }

  lemma NoSums(p: Plan, crc: seq<E.Block> -> nat, rs: seq<Record>, more: seq<Record>)
    requires SumsOfSource(p, crc, rs) && forall k :: 0 <= k < |more| ==> more[k].kind != CopyVerified
    ensures SumsOfSource(p, crc, rs + more)
  {
  }

  /** The journal staging works on: clean, an intent for every move, checksums of the sources. */
  ghost predicate Journal0(p: Plan, crc: seq<E.Block> -> nat, rs: seq<Record>) {
    WellOrdered(rs) && AllIntended(rs, p.moves) && SumsOfSource(p, crc, rs)
  }

  lemma CheckpointKeeps(p: Plan, crc: seq<E.Block> -> nat, rs: seq<Record>, phase: Phase)
    requires Journal0(p, crc, rs)
    ensures Journal0(p, crc, rs + [CheckpointRecord(LastTransaction(rs), phase)])
  {
    hide WellOrdered, AllIntended, LastTransaction;
    var c := CheckpointRecord(LastTransaction(rs), phase);
    CheckpointFits(rs, phase);
    AllIntendedAppend(rs, c, p.moves);
    NoSums(p, crc, rs, [c]);
  }

  /** Records for the moves at positions `picked`. */
  function VerifiedRecords(moves: seq<OwnerMove>, picked: seq<nat>, sums: seq<nat>): (r: seq<Record>)
    requires |picked| == |sums| && forall j :: 0 <= j < |picked| ==> picked[j] < |moves|
    ensures |r| == |picked|
  {
    seq(|picked|, j requires 0 <= j < |picked| => VerifiedRecord(moves[picked[j]], sums[j]))
  }

  lemma {:induction false} BatchFits(p: Plan, crc: seq<E.Block> -> nat, rs: seq<Record>, picked: seq<nat>, sums: seq<nat>)
    requires Identified(p.moves) && Journal0(p, crc, rs) && |picked| == |sums|
    requires forall j :: 0 <= j < |picked| ==> picked[j] < |p.moves| && sums[j] == SourceSum(p, crc, p.moves[picked[j]])
    ensures var all := rs + VerifiedRecords(p.moves, picked, sums);
      && Journal0(p, crc, all)
      && (forall j :: 0 <= j < |picked| ==> Ready(all, p.moves[picked[j]]))
      && (forall i :: 0 <= i < |p.moves| && Ready(rs, p.moves[i]) ==> Ready(all, p.moves[i]))
    decreases |picked|
  {
    hide WellOrdered, Ready, Intended, SumsOfSource, SourceSum;
    if picked == [] {
      assert rs + VerifiedRecords(p.moves, picked, sums) == rs;
    } else {
      var n := |picked| - 1;
      BatchFits(p, crc, rs, picked[..n], sums[..n]);
      var before := rs + VerifiedRecords(p.moves, picked[..n], sums[..n]);
      var m := p.moves[picked[n]];
      var r := VerifiedRecord(m, sums[n]);
      assert rs + VerifiedRecords(p.moves, picked, sums) == before + [r];
      VerifiedFits(before, m, sums[n]);
      AllIntendedAppend(before, r, p.moves);
      SumAppends(p, crc, before, picked[n], sums[n]);
      forall i | 0 <= i < |p.moves| && Ready(before, p.moves[i]) ensures Ready(before + [r], p.moves[i]) {
        ReadyAppend(before, r, p.moves[i]);
      }
      forall j | 0 <= j < |picked| ensures Ready(before + [r], p.moves[picked[j]]) {
        if j < n { assert picked[..n][j] == picked[j]; }
      }
    }
  }

  lemma SumAppends(p: Plan, crc: seq<E.Block> -> nat, rs: seq<Record>, i: nat, sum: nat)
    requires Identified(p.moves) && SumsOfSource(p, crc, rs) && i < |p.moves| && sum == SourceSum(p, crc, p.moves[i])
    ensures SumsOfSource(p, crc, rs + [VerifiedRecord(p.moves[i], sum)])
  {
    hide SourceSum;
    var all := rs + [VerifiedRecord(p.moves[i], sum)];
    forall k, j | 0 <= k < |all| && 0 <= j < |p.moves| && all[k].kind == CopyVerified && all[k].transaction == p.moves[j].transaction
      ensures all[k].crc == SourceSum(p, crc, p.moves[j])
    {
      if k == |rs| { assert p.moves[i].transaction == p.moves[j].transaction; } else { assert all[k] == rs[k]; }
    }
  }

  // ---------- resuming ----------

  /** The journal has intents for exactly the moves of the plan, each with its geometry. */
  ghost predicate SameIntents(rs: seq<Record>, moves: seq<OwnerMove>) {
    AllIntended(rs, moves) && forall id :: Seen(rs, RelocationIntent, id) ==> id in Transactions(moves)
  }

  /** A journal left by a crash before its intents were appended is refused from then on. */
  lemma NoIntentsRefused(rs: seq<Record>, moves: seq<OwnerMove>)
    requires moves != [] && forall j :: 0 <= j < |rs| ==> rs[j].kind != RelocationIntent
    ensures !SameIntents(rs, moves)
  {
    hide IntentOf;
    assert !Intended(rs, moves[0]);
  }

  /** The move's last verified record has the checksum its destination has now. */
  ghost predicate StillVerified(rs: seq<Record>, fs: E.Fs, crc: seq<E.Block> -> nat, m: OwnerMove) {
    var r := LastVerified(rs, m.transaction);
    r.Some? && r.value.crc == if m.unwritten then 0 else crc(C.Contents(fs, m.destination, m.count))
  }

  /**
   The resume path accepts exactly a journal whose intents are those of the plan; the answer holds
   the moves whose destination still has the checksum journalled for it.
   */
  method MatchJournal(dev: D.FsDevice, rs: seq<Record>, moves: seq<OwnerMove>, crc: seq<E.Block> -> nat, ghost p: Plan)
    returns (ok: bool, verified: set<nat>)
    requires WellOrdered(rs) && moves == p.moves && Identified(moves) && SumsOfSource(p, crc, rs)
    ensures ok <==> SameIntents(rs, moves)
    ensures ok ==> forall i :: 0 <= i < |moves| && moves[i].transaction in verified ==>
      Ready(rs, moves[i]) && SumMatches(p, dev.view.fs, crc, moves[i])
    ensures ok ==> forall i :: 0 <= i < |moves| ==> (moves[i].transaction in verified <==> StillVerified(rs, dev.view.fs, crc, moves[i]))
  {
    hide WellOrdered, InOrder, Seen, IntentOf, SourceSum, Transactions, LastVerified;
    verified := {};
    var intents := Collect(rs, RelocationIntent);
    var copies := Collect(rs, CopyVerified);
    TransactionsCount(moves);
    if |intents| != |moves| {
      if SameIntents(rs, moves) { ExactlyIntended(rs, moves, intents); }
      return false, {};
    }
    for k := 0 to |moves|
      invariant forall i :: 0 <= i < k ==> Intended(rs, moves[i]) && moves[i].transaction in intents
      invariant forall i :: 0 <= i < |moves| && moves[i].transaction in verified ==>
        Ready(rs, moves[i]) && SumMatches(p, dev.view.fs, crc, moves[i])
      invariant forall i :: 0 <= i < |moves| ==> (moves[i].transaction in verified <==> i < k && StillVerified(rs, dev.view.fs, crc, moves[i]))
    {
      var m := moves[k];
      if m.transaction !in intents {
        if Intended(rs, m) { IntentIsSeen(rs, m.transaction); }
        return false, {};
      }
      IntentGeometry(rs, intents[m.transaction]);
      if !Matches(m, intents[m.transaction]) { return false, {}; }
      if m.transaction in copies {
        var sum := VerifyOne(dev, m, crc);
        if sum == copies[m.transaction].crc {
          JournalledSum(p, crc, rs, k, copies[m.transaction]);
          ReadyParts(rs, m);
          verified := verified + {m.transaction};
        }
      }
    }
    NoOthers(moves, intents);
    ok := true;
  }

  lemma ExactlyIntended(rs: seq<Record>, moves: seq<OwnerMove>, intents: map<nat, Record>)
    requires SameIntents(rs, moves) && forall id :: id in intents <==> Seen(rs, RelocationIntent, id)
    ensures intents.Keys == Transactions(moves) && |intents| == |Transactions(moves)|
  {
    hide Seen, IntentOf;
    forall id | id in Transactions(moves) ensures id in intents {
      var i :| 0 <= i < |moves| && moves[i].transaction == id;
      assert Intended(rs, moves[i]);
      IntentIsSeen(rs, id);
    }
    assert |intents| == |intents.Keys|;
  }

  lemma NoOthers(moves: seq<OwnerMove>, intents: map<nat, Record>)
    requires |intents| == |Transactions(moves)| && forall i :: 0 <= i < |moves| ==> moves[i].transaction in intents
    ensures intents.Keys == Transactions(moves)
  {
    assert |intents| == |intents.Keys|;
    assert Transactions(moves) <= intents.Keys;
    SameSize(Transactions(moves), intents.Keys);
  }

  lemma JournalledSum(p: Plan, crc: seq<E.Block> -> nat, rs: seq<Record>, i: nat, r: Record)
    requires SumsOfSource(p, crc, rs) && i < |p.moves| && r in rs && r.kind == CopyVerified && r.transaction == p.moves[i].transaction
    ensures r.crc == SourceSum(p, crc, p.moves[i])
  {
    var k :| 0 <= k < |rs| && rs[k] == r;
  }

  // ---------- one batch ----------

  /** The moves at positions `picked` are copied, each with the checksum of its source. */
  ghost predicate AllCopied(p: Plan, fs: E.Fs, crc: seq<E.Block> -> nat, picked: seq<nat>, sums: seq<nat>) {
    && |picked| == |sums|
    && forall j :: 0 <= j < |picked| ==> CopiedAt(p, fs, crc, picked[j], sums[j])
  }

  ghost predicate CopiedAt(p: Plan, fs: E.Fs, crc: seq<E.Block> -> nat, i: nat, sum: nat) {
    i < |p.moves| && sum == SourceSum(p, crc, p.moves[i]) && ExactCopy(p, fs, p.moves[i])
  }

  /** What is known of the destinations of moves outside `skip`. */
  ghost predicate DestinationsKept(p: Plan, before: E.Fs, fs: E.Fs, skip: set<nat>) {
    forall i :: 0 <= i < |p.moves| && i !in skip ==> SameDestination(before, fs, p.moves[i])
  }

  ghost predicate SameDestination(before: E.Fs, fs: E.Fs, m: OwnerMove) {
    C.Contents(fs, m.destination, m.count) == C.Contents(before, m.destination, m.count)
  }

  /** At rest during staging. */
  ghost predicate StageRest(dev: D.FsDevice, p: Plan)
    reads dev
  {
    Unstaged(p, dev.durable) && Unstaged(p, dev.view) && StageGuards(p, dev.trace)
  }

  /** Copy the unverified moves of [pos, cursor). */
  method CopyBatch(dev: D.FsDevice, moves: seq<OwnerMove>, verified: set<nat>, pos: nat, cursor: nat, crc: seq<E.Block> -> nat, ghost p: Plan)
    returns (r: CopyResult, picked: seq<nat>, sums: seq<nat>)
    requires Planned(p) && moves == p.moves && pos <= cursor <= |moves| && StageRest(dev, p)
    modifies dev
    ensures StageRest(dev, p) && dev.failed == (old(dev.failed) || r == CopyFailed) && dev.durable == old(dev.durable) && dev.view == old(dev.view).(fs := dev.view.fs)
    ensures r.Copied? ==> AllCopied(p, dev.view.fs, crc, picked, sums)
    ensures forall j :: 0 <= j < |picked| ==> pos <= picked[j] < cursor && moves[picked[j]].transaction !in verified
    ensures r.Copied? ==> forall k :: pos <= k < cursor && moves[k].transaction !in verified ==> k in picked
    ensures r.Copied? ==> DestinationsKept(p, old(dev.view).fs, dev.view.fs, set j | 0 <= j < |picked| :: picked[j])
  {
    hide Planned, StageGuards, OnlyDestinations, SourceSum, ExactCopy;
    picked, sums := [], [];
    ghost var before := dev.view.fs;
    for k := pos to cursor
      invariant StageRest(dev, p) && dev.failed == old(dev.failed) && dev.durable == old(dev.durable) && dev.view == old(dev.view).(fs := dev.view.fs)
      invariant AllCopied(p, dev.view.fs, crc, picked, sums)
      invariant forall j :: 0 <= j < |picked| ==> pos <= picked[j] < k && moves[picked[j]].transaction !in verified
      invariant forall i :: pos <= i < k && moves[i].transaction !in verified ==> i in picked
      invariant DestinationsKept(p, before, dev.view.fs, set j | 0 <= j < |picked| :: picked[j])
    {
      if moves[k].transaction !in verified {
        C.MovesApart(p, k, k);
        ghost var mid := dev.view.fs;
        r := CopyOne(dev, moves[k], crc, p, k);
        if !r.Copied? { return; }
        CopyAdds(p, before, mid, dev.view.fs, crc, picked, sums, k, r.sum);
        picked, sums := picked + [k], sums + [r.sum];
      }
    }
    r := Copied(|picked|);
  }

  lemma CopyAdds(p: Plan, before: E.Fs, mid: E.Fs, fs: E.Fs, crc: seq<E.Block> -> nat, picked: seq<nat>, sums: seq<nat>, k: nat, sum: nat)
    requires Planned(p) && k < |p.moves| && OnlyDestinations(p.fs0, mid, p.moves)
    requires CopiedUpTo(mid, fs, p.moves[k], if p.moves[k].unwritten then 0 else p.moves[k].count)
    requires sum == if p.moves[k].unwritten then 0 else crc(C.Contents(mid, p.moves[k].source, p.moves[k].count))
    requires AllCopied(p, mid, crc, picked, sums) && (forall j :: 0 <= j < |picked| ==> picked[j] < k)
    requires DestinationsKept(p, before, mid, set j | 0 <= j < |picked| :: picked[j])
    ensures AllCopied(p, fs, crc, picked + [k], sums + [sum])
    ensures DestinationsKept(p, before, fs, set j | 0 <= j < |picked + [k]| :: (picked + [k])[j])
  {
    hide Planned, OnlyDestinations, CopiedUpTo;
    CopyIsExact(p, mid, fs, k);
    SourceContents(p, mid, k);
    var n := if p.moves[k].unwritten then 0 else p.moves[k].count;
    forall i | 0 <= i < |p.moves| && i != k ensures SameDestination(mid, fs, p.moves[i]) {
      OtherCopies(p, mid, fs, k, n, i);
    }
    var all := picked + [k];
    forall j | 0 <= j < |all| ensures CopiedAt(p, fs, crc, all[j], (sums + [sum])[j]) {
      if j < |picked| {
        assert CopiedAt(p, mid, crc, picked[j], sums[j]);
        assert SameDestination(mid, fs, p.moves[picked[j]]);
      }
    }
    forall i | 0 <= i < |p.moves| && i !in (set j | 0 <= j < |all| :: all[j]) ensures SameDestination(before, fs, p.moves[i]) {
      assert all[|picked|] == k;
      forall j | 0 <= j < |picked| ensures picked[j] != i { assert all[j] == picked[j]; }
      assert SameDestination(before, mid, p.moves[i]) && SameDestination(mid, fs, p.moves[i]);
    }
  }

  datatype StageResult = AllStaged | NothingToStage | Stopped | Interrupted | Broken | Mismatched | Refused | TooLate | NotClean | Miscounted

  /** What is established for the moves before `pos` and for the verified ones. */
  ghost predicate StagedSoFar(p: Plan, fs: E.Fs, rs: seq<Record>, crc: seq<E.Block> -> nat, verified: set<nat>, pos: nat, anew: bool) {
    forall i :: 0 <= i < |p.moves| && (i < pos || p.moves[i].transaction in verified) ==> StagedMove(p, fs, rs, crc, p.moves[i], anew)
  }

  ghost predicate StagedMove(p: Plan, fs: E.Fs, rs: seq<Record>, crc: seq<E.Block> -> nat, m: OwnerMove, anew: bool) {
    Ready(rs, m) && SumMatches(p, fs, crc, m) && (anew ==> ExactCopy(p, fs, m))
  }

  /** Every copy recorded since `before` is of an earlier move than `pos`, and durable with its source's checksum. */
  ghost predicate DurablyRecorded(before: seq<Record>, after: seq<Record>, p: Plan, crc: seq<E.Block> -> nat, fs: E.Fs, pos: nat) {
    && before <= after
    && forall k, i :: |before| <= k < |after| && 0 <= i < |p.moves| && after[k].kind == CopyVerified && after[k].transaction == p.moves[i].transaction ==>
         i < pos && SumMatches(p, fs, crc, p.moves[i])
  }

  ghost predicate SumsHold(p: Plan, fs: E.Fs, crc: seq<E.Block> -> nat, pos: nat) {
    forall i :: 0 <= i < |p.moves| && i < pos ==> SumMatches(p, fs, crc, p.moves[i])
  }

  lemma RecordedStays(before: seq<Record>, mid: seq<Record>, after: seq<Record>, p: Plan, crc: seq<E.Block> -> nat, a: E.Fs, b: E.Fs, pos: nat, cursor: nat)
    requires DurablyRecorded(before, mid, p, crc, a, pos) && SumsHold(p, b, crc, pos) && DurablyRecorded(mid, after, p, crc, b, cursor) && pos <= cursor
    ensures DurablyRecorded(before, after, p, crc, b, cursor)
  {
    hide SumMatches;
    forall k, i | |before| <= k < |after| && 0 <= i < |p.moves| && after[k].kind == CopyVerified && after[k].transaction == p.moves[i].transaction
      ensures i < cursor && SumMatches(p, b, crc, p.moves[i])
    {
      if k < |mid| { assert after[k] == mid[k]; }
    }
  }

  lemma CheckpointRecorded(before: seq<Record>, after: seq<Record>, p: Plan, crc: seq<E.Block> -> nat, fs: E.Fs, pos: nat, phase: Phase)
    requires DurablyRecorded(before, after, p, crc, fs, pos)
    ensures DurablyRecorded(before, after + [CheckpointRecord(LastTransaction(after), phase)], p, crc, fs, pos)
  {
    hide SumMatches, LastTransaction;
  }

  lemma BatchRecorded(rs: seq<Record>, p: Plan, crc: seq<E.Block> -> nat, fs: E.Fs, picked: seq<nat>, sums: seq<nat>, cursor: nat)
    requires AllCopied(p, fs, crc, picked, sums) && Identified(p.moves) && forall j :: 0 <= j < |picked| ==> picked[j] < cursor && picked[j] < |p.moves|
    ensures DurablyRecorded(rs, rs + VerifiedRecords(p.moves, picked, sums), p, crc, fs, cursor)
  {
    hide ExactCopy, SourceSum, SumMatches;
    var more := VerifiedRecords(p.moves, picked, sums);
    var after := rs + more;
    forall k, i | |rs| <= k < |after| && 0 <= i < |p.moves| && after[k].kind == CopyVerified && after[k].transaction == p.moves[i].transaction
      ensures i < cursor && SumMatches(p, fs, crc, p.moves[i])
    {
      var j := k - |rs|;
      assert after[k] == more[j] == VerifiedRecord(p.moves[picked[j]], sums[j]);
      assert i == picked[j];
      assert CopiedAt(p, fs, crc, picked[j], sums[j]);
      CopiedMatches(p, fs, crc, i, sums[j]);
    }
  }

  lemma CopiedMatches(p: Plan, fs: E.Fs, crc: seq<E.Block> -> nat, i: nat, sum: nat)
    requires CopiedAt(p, fs, crc, i, sum)
    ensures SumMatches(p, fs, crc, p.moves[i])
  {
  }

  lemma SoFarHold(p: Plan, fs: E.Fs, rs: seq<Record>, crc: seq<E.Block> -> nat, verified: set<nat>, pos: nat, anew: bool)
    requires StagedSoFar(p, fs, rs, crc, verified, pos, anew)
    ensures SumsHold(p, fs, crc, pos)
  {
    hide SumMatches, Ready, ExactCopy;
    forall i | 0 <= i < |p.moves| && i < pos ensures SumMatches(p, fs, crc, p.moves[i]) {
      assert StagedMove(p, fs, rs, crc, p.moves[i], anew);
    }
  }

  lemma KeptHold(p: Plan, a: E.Fs, b: E.Fs, crc: seq<E.Block> -> nat, picked: seq<nat>, pos: nat)
    requires SumsHold(p, a, crc, pos) && DestinationsKept(p, a, b, set j | 0 <= j < |picked| :: picked[j])
    requires forall j :: 0 <= j < |picked| ==> pos <= picked[j]
    ensures SumsHold(p, b, crc, pos)
  {
    forall i | 0 <= i < |p.moves| && i < pos ensures SumMatches(p, b, crc, p.moves[i]) {
      assert i !in (set j | 0 <= j < |picked| :: picked[j]);
      assert SameDestination(a, b, p.moves[i]);
    }
  }

  lemma WiderRecorded(before: seq<Record>, after: seq<Record>, p: Plan, crc: seq<E.Block> -> nat, fs: E.Fs, pos: nat, wider: nat)
    requires DurablyRecorded(before, after, p, crc, fs, pos) && pos <= wider
    ensures DurablyRecorded(before, after, p, crc, fs, wider)
  {
    hide SumMatches;
  }

  lemma NothingRecorded(rs: seq<Record>, p: Plan, crc: seq<E.Block> -> nat, fs: E.Fs, pos: nat)
    ensures DurablyRecorded(rs, rs, p, crc, fs, pos)
  {
  }

  function PausedHere(entries: seq<Record>): seq<Record> {
    entries + [CheckpointRecord(LastTransaction(entries), Phase.Paused)]
  }

  /**
   The batch is copied, flushed, read back, and recorded in one append. If a copy fails or is cancelled
   a paused checkpoint is attempted, whatever comes of it, and the batch is given up.
   */
  method StageBatch(dev: D.FsDevice, log: C.Log, moves: seq<OwnerMove>, verified: set<nat>, pos: nat, cursor: nat, verify: bool,
                    crc: seq<E.Block> -> nat, ghost p: Plan, ghost anew: bool)
    returns (r: StageResult)
    requires Planned(p) && Identified(moves) && moves == p.moves && pos <= cursor <= |moves|
    requires StageRest(dev, p) && dev.durable == dev.view && Journal0(p, crc, log.entries)
    requires StagedSoFar(p, dev.view.fs, log.entries, crc, verified, pos, anew)
    modifies dev, log
    ensures StageRest(dev, p) && Journal0(p, crc, log.entries) && dev.view == old(dev.view).(fs := dev.view.fs)
    ensures r == AllStaged || r == Broken || r == Interrupted
    ensures r != Interrupted ==> C.Failing(dev.failed, log.failed, old(dev.failed), old(log.failed), r == Broken)
    ensures r != Broken ==> dev.failed == old(dev.failed)
    ensures r == Interrupted ==> dev.durable == old(dev.durable)
    ensures r == Interrupted ==> log.entries == PausedHere(old(log.entries)) || (log.failed && log.entries == old(log.entries))
    ensures DurablyRecorded(old(log.entries), log.entries, p, crc, dev.durable.fs, cursor) && SumsHold(p, dev.durable.fs, crc, pos)
    ensures r == AllStaged ==> dev.durable == dev.view && StagedSoFar(p, dev.view.fs, log.entries, crc, verified, cursor, anew)
  {
    hide Planned, StageGuards, Unstaged, StagedSoFar, AllCopied, DestinationsKept, Journal0, DurablyRecorded, SumsHold, LastTransaction;
    ghost var before := dev.view.fs;
    SoFarHold(p, before, log.entries, crc, verified, pos, anew);
    NothingRecorded(log.entries, p, crc, before, cursor);
    CheckpointRecorded(log.entries, log.entries, p, crc, before, cursor, Phase.Paused);
    var copied, picked, sums := CopyBatch(dev, moves, verified, pos, cursor, crc, p);
    var ok: bool;
    if !copied.Copied? {
      ghost var rs := log.entries;
      CheckpointKeeps(p, crc, rs, Phase.Paused);
      ok := R.LogCheckpoint(log, Phase.Paused);
      return if copied == CopyCancelled then Interrupted else Broken;
    }
    ok := dev.Flush();
    if !ok { return Broken; }
    FlushGuarded(dev, p);
    KeptHold(p, before, dev.view.fs, crc, picked, pos);
    NothingRecorded(log.entries, p, crc, dev.view.fs, cursor);
    if verify {
      CopiedRange(p, dev.view.fs, crc, picked, sums);
      CopiesReadBack(p, dev.view.fs, crc, picked, sums);
      var same := ReadBack(dev, moves, picked, sums, crc);
      if !same { return Mismatched; }
    }
    CopiedRange(p, dev.view.fs, crc, picked, sums);
    ghost var rs := log.entries;
    BatchFits(p, crc, rs, picked, sums);
    BatchRecorded(rs, p, crc, dev.view.fs, picked, sums, cursor);
    ok := log.AppendBatch(VerifiedRecords(moves, picked, sums));
    if !ok { return Broken; }
    BatchStaged(p, before, dev.view.fs, rs, crc, verified, pos, cursor, picked, sums, anew);
    r := AllStaged;
  }

  lemma FlushGuarded(dev: D.FsDevice, p: Plan)
    requires Unstaged(p, dev.view) && |dev.trace| > 0 && StageGuards(p, dev.trace[..|dev.trace| - 1]) && dev.trace[|dev.trace| - 1] == (dev.view, dev.view)
    ensures StageGuards(p, dev.trace)
  {
    hide Unstaged, StageGuarded;
    StageStepGuarded(p, dev.view, dev.view);
    forall k | 0 <= k < |dev.trace| ensures StageGuarded(p, dev.trace[k]) {
      if k < |dev.trace| - 1 { assert dev.trace[..|dev.trace| - 1][k] == dev.trace[k]; }
    }
  }

  lemma CopiedRange(p: Plan, fs: E.Fs, crc: seq<E.Block> -> nat, picked: seq<nat>, sums: seq<nat>)
    requires AllCopied(p, fs, crc, picked, sums)
    ensures |picked| == |sums| && forall j :: 0 <= j < |picked| ==> picked[j] < |p.moves| && sums[j] == SourceSum(p, crc, p.moves[picked[j]])
  {
    hide ExactCopy, SourceSum;
    forall j | 0 <= j < |picked| ensures CopiedAt(p, fs, crc, picked[j], sums[j]) { }
  }

  /** The destination reads back with the checksum. */
  ghost predicate ReadsAs(fs: E.Fs, crc: seq<E.Block> -> nat, m: OwnerMove, sum: nat) {
    sum == if m.unwritten then 0 else crc(C.Contents(fs, m.destination, m.count))
  }

  /** The read-back of a batch: it agrees exactly when every destination has the checksum of its copy. */
  method ReadBack(dev: D.FsDevice, moves: seq<OwnerMove>, picked: seq<nat>, sums: seq<nat>, crc: seq<E.Block> -> nat) returns (same: bool)
    requires |picked| == |sums| && forall j :: 0 <= j < |picked| ==> picked[j] < |moves|
    ensures same <==> forall j :: 0 <= j < |picked| ==> ReadsAs(dev.view.fs, crc, moves[picked[j]], sums[j])
  {
    for j := 0 to |picked|
      invariant forall i :: 0 <= i < j ==> ReadsAs(dev.view.fs, crc, moves[picked[i]], sums[i])
    {
      var back := VerifyOne(dev, moves[picked[j]], crc);
      if back != sums[j] { return false; }
    }
    same := true;
  }

  /** An exact copy reads back. */
  lemma CopiesReadBack(p: Plan, fs: E.Fs, crc: seq<E.Block> -> nat, picked: seq<nat>, sums: seq<nat>)
    requires AllCopied(p, fs, crc, picked, sums)
    ensures forall j :: 0 <= j < |picked| ==> picked[j] < |p.moves| && ReadsAs(fs, crc, p.moves[picked[j]], sums[j])
  {
    forall j | 0 <= j < |picked| ensures picked[j] < |p.moves| && ReadsAs(fs, crc, p.moves[picked[j]], sums[j]) {
      assert CopiedAt(p, fs, crc, picked[j], sums[j]);
    }
  }

  lemma BatchStaged(p: Plan, before: E.Fs, fs: E.Fs, rs: seq<Record>, crc: seq<E.Block> -> nat, verified: set<nat>, pos: nat, cursor: nat,
                    picked: seq<nat>, sums: seq<nat>, anew: bool)
    requires pos <= cursor <= |p.moves| && Identified(p.moves) && Journal0(p, crc, rs)
    requires StagedSoFar(p, before, rs, crc, verified, pos, anew) && AllCopied(p, fs, crc, picked, sums)
    requires forall j :: 0 <= j < |picked| ==> pos <= picked[j] < cursor
    requires forall k :: pos <= k < cursor && p.moves[k].transaction !in verified ==> k in picked
    requires DestinationsKept(p, before, fs, set j | 0 <= j < |picked| :: picked[j])
    ensures |picked| == |sums| && StagedSoFar(p, fs, rs + VerifiedRecords(p.moves, picked, sums), crc, verified, cursor, anew)
  {
    hide Journal0, Ready, Identified;
    CopiedRange(p, fs, crc, picked, sums);
    BatchFits(p, crc, rs, picked, sums);
    var all := rs + VerifiedRecords(p.moves, picked, sums);
    forall i | 0 <= i < |p.moves| && (i < cursor || p.moves[i].transaction in verified) ensures StagedMove(p, fs, all, crc, p.moves[i], anew) {
      if i in picked {
        var j :| 0 <= j < |picked| && picked[j] == i;
        assert CopiedAt(p, fs, crc, picked[j], sums[j]);
      } else {
        assert StagedMove(p, before, rs, crc, p.moves[i], anew);
        assert i !in (set j | 0 <= j < |picked| :: picked[j]);
        assert SameDestination(before, fs, p.moves[i]);
      }
    }
  }

  // ---------- staging ----------

  predicate StagePhase(phase: Phase) {
    phase == Prepared || phase == Relocating || phase == Phase.Paused || phase == Staged
  }

  /** The filesystem is marked clean and, where it carries checksums, its counts have been verified. */
  predicate Startable(d: D.Disk, geo: D.Geometry, checked: bool)
    requires D.GeometryOk(geo)
  {
    d.super.Super? && d.super.clean && (checked ==> D.CountsAgree(geo, d))
  }

  /**
   stage_relocation, fresh or resumed. However it ends the journal stays clean, every checksum in it
   is that of its source, and every crash on the way leaves only destinations changed. When it
   completes, every move has its intent and a verified record, and its destination has the source's
   checksum; after a fresh staging it has the source's contents. An empty plan is done before any
   check; every refusal has its exact reason and changes nothing.
   */
  method StageRelocation(dev: D.FsDevice, log: C.Log, geo: D.Geometry, moves: seq<OwnerMove>, existing: bool, phase: Phase,
                         checked: bool, workers: nat, verify: bool, crc: seq<E.Block> -> nat, ghost p: Plan)
    returns (r: StageResult)
    requires Planned(p) && Identified(moves) && moves == p.moves && workers > 0 && D.GeometryOk(geo)
    requires StageRest(dev, p) && dev.durable == dev.view
    requires if existing then WellOrdered(log.entries) && SumsOfSource(p, crc, log.entries) else log.entries == []
    modifies dev, log
    ensures StageGuards(p, dev.trace) && Unstaged(p, dev.view) && dev.view == old(dev.view).(fs := dev.view.fs)
    ensures WellOrdered(log.entries) && SumsOfSource(p, crc, log.entries)
    ensures DurablyRecorded(old(log.entries), log.entries, p, crc, dev.durable.fs, |moves|)
    ensures r == NothingToStage <==> moves == []
    ensures r == NotClean <==> moves != [] && !(old(dev.view).super.Super? && old(dev.view).super.clean)
    ensures r == Miscounted <==> moves != [] && old(dev.view).super.Super? && old(dev.view).super.clean && !Startable(old(dev.view), geo, checked)
    ensures r == TooLate <==> moves != [] && Startable(old(dev.view), geo, checked) && existing && !StagePhase(phase)
    ensures r == Refused <==> moves != [] && Startable(old(dev.view), geo, checked) && existing && StagePhase(phase) && !SameIntents(old(log.entries), moves)
    ensures r in {NothingToStage, NotClean, Miscounted, TooLate, Refused} ==> dev.view == old(dev.view) && dev.trace == old(dev.trace) && log.entries == old(log.entries)
    ensures r != Mismatched
    ensures r != Interrupted ==> C.Failing(dev.failed, log.failed, old(dev.failed), old(log.failed), r == Broken)
    ensures r == Interrupted ==> dev.failed == old(dev.failed)
    ensures r == AllStaged ==> dev.durable == dev.view && AllReady(log.entries, moves) && LastPhase(log.entries) == PhaseCode(Staged)
    ensures r == Stopped ==> LastPhase(log.entries) == PhaseCode(Phase.Paused)
    ensures r == AllStaged ==> forall i :: 0 <= i < |moves| ==> SumMatches(p, dev.view.fs, crc, moves[i])
    ensures r == AllStaged && !existing ==> forall i :: 0 <= i < |moves| ==> ExactCopy(p, dev.view.fs, moves[i])
  {
    hide Planned, StageGuards, Unstaged, StagedSoFar, WellOrdered, Ready, AllIntended, SameIntents, SumsOfSource, SumMatches, ExactCopy, LastTransaction, LastPhase, Identified, D.CountsAgree, DurablyRecorded, SumsHold;
    NoJournal(p, crc);
    NothingRecorded(log.entries, p, crc, dev.durable.fs, |moves|);
    NothingRecorded(log.entries, p, crc, dev.durable.fs, 0);
    if moves == [] { return NothingToStage; }
    if !(dev.view.super.Super? && dev.view.super.clean) { return NotClean; }
    if checked && !D.CountsAgree(geo, dev.view) { return Miscounted; }
    if existing && !StagePhase(phase) { return TooLate; }
    var ok: bool, verified: set<nat> := false, {};
    if existing {
      ok, verified := MatchJournal(dev, log.entries, moves, crc, p);
      if !ok { return Refused; }
      IntendedOnes(log.entries, moves);
    } else {
      ok := AppendIntents(log, moves, crc, p, dev.durable.fs);
      WiderRecorded([], log.entries, p, crc, dev.durable.fs, 0, |moves|);
      if !ok { return Broken; }
    }
    StartStaged(p, dev.view.fs, log.entries, crc, verified, !existing);
    ghost var begun, was := log.entries, dev.durable.fs;
    r := StageMoves(dev, log, moves, verified, workers, verify, crc, p, !existing);
    SumsNone(p, dev.durable.fs, crc);
    RecordedStays(old(log.entries), begun, log.entries, p, crc, was, dev.durable.fs, 0, |moves|);
  }

  /** The batches in turn, and the staged checkpoint. */
  method StageMoves(dev: D.FsDevice, log: C.Log, moves: seq<OwnerMove>, verified: set<nat>, workers: nat, verify: bool,
                    crc: seq<E.Block> -> nat, ghost p: Plan, ghost anew: bool)
    returns (r: StageResult)
    requires Planned(p) && Identified(moves) && moves == p.moves && workers > 0
    requires StageRest(dev, p) && dev.durable == dev.view && Journal0(p, crc, log.entries)
    requires StagedSoFar(p, dev.view.fs, log.entries, crc, verified, 0, anew)
    modifies dev, log
    ensures StageRest(dev, p) && dev.view == old(dev.view).(fs := dev.view.fs) && Journal0(p, crc, log.entries)
    ensures DurablyRecorded(old(log.entries), log.entries, p, crc, dev.durable.fs, |moves|)
    ensures r in {AllStaged, Stopped, Interrupted, Broken}
    ensures r != Interrupted ==> C.Failing(dev.failed, log.failed, old(dev.failed), old(log.failed), r == Broken)
    ensures r != Broken ==> dev.failed == old(dev.failed)
    ensures r == AllStaged ==> dev.durable == dev.view && AllReady(log.entries, moves) && LastPhase(log.entries) == PhaseCode(Staged)
    ensures r == Stopped ==> LastPhase(log.entries) == PhaseCode(Phase.Paused)
    ensures r == AllStaged ==> forall i :: 0 <= i < |moves| ==> SumMatches(p, dev.view.fs, crc, moves[i])
    ensures r == AllStaged && anew ==> forall i :: 0 <= i < |moves| ==> ExactCopy(p, dev.view.fs, moves[i])
  {
    hide Planned, StageGuards, Unstaged, StagedSoFar, Journal0, Ready, SumMatches, ExactCopy, LastTransaction, LastPhase, Identified, DurablyRecorded, SumsHold;
    NothingRecorded(log.entries, p, crc, dev.durable.fs, 0);
    var ok: bool;
    var pos := 0;
    while pos < |moves|
      invariant pos <= |moves| && StageRest(dev, p) && dev.durable == dev.view && Journal0(p, crc, log.entries)
      invariant dev.view == old(dev.view).(fs := dev.view.fs)
      invariant C.Failing(dev.failed, log.failed, old(dev.failed), old(log.failed), false) && dev.failed == old(dev.failed)
      invariant DurablyRecorded(old(log.entries), log.entries, p, crc, dev.durable.fs, pos)
      invariant StagedSoFar(p, dev.view.fs, log.entries, crc, verified, pos, anew)
    {
      if moves[pos].transaction in verified {
        WiderRecorded(old(log.entries), log.entries, p, crc, dev.durable.fs, pos, pos + 1);
        StagedNext(p, dev.view.fs, log.entries, crc, verified, pos, anew);
        pos := pos + 1;
      } else {
        var cancel := *;
        if cancel {
          CheckpointKeeps(p, crc, log.entries, Phase.Paused);
          WiderRecorded(old(log.entries), log.entries, p, crc, dev.durable.fs, pos, |moves|);
          CheckpointRecorded(old(log.entries), log.entries, p, crc, dev.durable.fs, |moves|, Phase.Paused);
          R.CheckpointEnds(log.entries, LastTransaction(log.entries), Phase.Paused);
          ok := R.LogCheckpoint(log, Phase.Paused);
          return if ok then Stopped else Broken;
        }
        var cursor, n := pos, 0;
        while cursor < |moves| && n < workers
          invariant pos <= cursor <= |moves| && (n > 0 ==> cursor > pos)
        {
          if moves[cursor].transaction !in verified { n := n + 1; }
          cursor := cursor + 1;
        }
        ghost var mid, was := log.entries, dev.durable.fs;
        r := StageBatch(dev, log, moves, verified, pos, cursor, verify, crc, p, anew);
        RecordedStays(old(log.entries), mid, log.entries, p, crc, was, dev.durable.fs, pos, cursor);
        if r != AllStaged {
          WiderRecorded(old(log.entries), log.entries, p, crc, dev.durable.fs, cursor, |moves|);
          return;
        }
        pos := cursor;
      }
    }
    ghost var rs := log.entries;
    CheckpointRecorded(old(log.entries), rs, p, crc, dev.durable.fs, |moves|, Staged);
    CheckpointKeeps(p, crc, rs, Staged);
    R.CheckpointEnds(rs, LastTransaction(rs), Staged);
    EndStaged(p, dev.view.fs, rs, crc, verified, anew);
    ok := R.LogCheckpoint(log, Staged);
    if !ok { return Broken; }
    r := AllStaged;
  }

  lemma IntendedOnes(rs: seq<Record>, moves: seq<OwnerMove>)
    requires SameIntents(rs, moves)
    ensures AllIntended(rs, moves)
  {
  }

  lemma NoJournal(p: Plan, crc: seq<E.Block> -> nat)
    ensures WellOrdered([]) && SumsOfSource(p, crc, [])
  {
  }

  /** The intents of a fresh journal in one append, then the relocating checkpoint. */
  method AppendIntents(log: C.Log, moves: seq<OwnerMove>, crc: seq<E.Block> -> nat, ghost p: Plan, ghost fs: E.Fs) returns (ok: bool)
    requires Identified(moves) && log.entries == [] && moves == p.moves
    modifies log
    ensures WellOrdered(log.entries) && SumsOfSource(p, crc, log.entries) && log.failed == (old(log.failed) || !ok)
    ensures DurablyRecorded([], log.entries, p, crc, fs, 0)
    ensures ok ==> Journal0(p, crc, log.entries) && LastPhase(log.entries) == PhaseCode(Relocating)
  {
    hide WellOrdered, Intended, LastTransaction, DurablyRecorded;
    NoJournal(p, crc);
    IntentsFit(moves, |moves|);
    ghost var rs := Intents(moves, |moves|);
    assert [] + rs == rs;
    IntentsRecorded(rs, moves, p, crc, fs);
    NothingRecorded([], p, crc, fs, 0);
    CheckpointRecorded([], rs, p, crc, fs, 0, Relocating);
    assert Journal0(p, crc, rs);
    ok := log.AppendBatch(Intents(moves, |moves|));
    if !ok { return; }
    CheckpointKeeps(p, crc, rs, Relocating);
    R.CheckpointEnds(rs, LastTransaction(rs), Relocating);
    ok := R.LogCheckpoint(log, Relocating);
  }

  lemma IntentsRecorded(rs: seq<Record>, moves: seq<OwnerMove>, p: Plan, crc: seq<E.Block> -> nat, fs: E.Fs)
    requires rs == Intents(moves, |moves|)
    ensures DurablyRecorded([], rs, p, crc, fs, 0)
  {
    hide SumMatches;
  }

  lemma SumsNone(p: Plan, fs: E.Fs, crc: seq<E.Block> -> nat)
    ensures SumsHold(p, fs, crc, 0)
  {
  }

  lemma StartStaged(p: Plan, fs: E.Fs, rs: seq<Record>, crc: seq<E.Block> -> nat, verified: set<nat>, anew: bool)
    requires anew ==> verified == {}
    requires forall i :: 0 <= i < |p.moves| && p.moves[i].transaction in verified ==> Ready(rs, p.moves[i]) && SumMatches(p, fs, crc, p.moves[i])
    ensures StagedSoFar(p, fs, rs, crc, verified, 0, anew)
  {
    hide Ready, SumMatches;
  }

  lemma StagedNext(p: Plan, fs: E.Fs, rs: seq<Record>, crc: seq<E.Block> -> nat, verified: set<nat>, pos: nat, anew: bool)
    requires StagedSoFar(p, fs, rs, crc, verified, pos, anew) && pos < |p.moves| && p.moves[pos].transaction in verified
    ensures StagedSoFar(p, fs, rs, crc, verified, pos + 1, anew)
  {
    hide StagedMove;
  }

  lemma EndStaged(p: Plan, fs: E.Fs, rs: seq<Record>, crc: seq<E.Block> -> nat, verified: set<nat>, anew: bool)
    requires StagedSoFar(p, fs, rs, crc, verified, |p.moves|, anew)
    ensures AllReady(rs + [CheckpointRecord(LastTransaction(rs), Staged)], p.moves)
    ensures forall i :: 0 <= i < |p.moves| ==> SumMatches(p, fs, crc, p.moves[i]) && (anew ==> ExactCopy(p, fs, p.moves[i]))
  {
    hide Ready, SumMatches, ExactCopy, LastTransaction;
    forall i | 0 <= i < |p.moves| ensures StagedMove(p, fs, rs, crc, p.moves[i], anew) { }
    AllReadyAppend(rs, CheckpointRecord(LastTransaction(rs), Staged), p.moves);
  }

  // ---------- staging, then committing ----------

  /** On a freshly staged filesystem the journal's checksums can be trusted, whatever the checksum function. */
  lemma ExactIsTrusted(p: Plan, fs: E.Fs, crc: seq<E.Block> -> nat, rs: seq<Record>)
    requires Planned(p) && OnlyDestinations(p.fs0, fs, p.moves)
    requires forall i :: 0 <= i < |p.moves| ==> ExactCopy(p, fs, p.moves[i])
    ensures JournalTrusted(p.(fs0 := fs), crc, rs)
  {
    hide Planned, OnlyDestinations, C.Contents;
    forall i | 0 <= i < |p.moves| && p.moves[i].kind == DataExtent && !p.moves[i].unwritten ensures CopyTrusted(fs, p.moves[i], crc, rs) {
      SourceContents(p, fs, i);
      assert ExactCopy(p, fs, p.moves[i]);
    }
  }

  /** No staged copy is stale against the checksums the journal records. */
  lemma StagedIsFresh(p: Plan, fs: E.Fs, crc: seq<E.Block> -> nat, rs: seq<Record>, sums: seq<nat>, i: nat)
    requires SumsOfSource(p, crc, rs) && SumsFrom(rs, p.moves, sums) && i < |p.moves| && SumMatches(p, fs, crc, p.moves[i])
    ensures !C.StaleCopy(fs, p.moves[i], crc, sums[i])
  {
    hide C.Contents;
    assert SumFrom(rs, p.moves[i], sums[i]);
    var r := LastVerified(rs, p.moves[i].transaction).value;
    JournalledSum(p, crc, rs, i, r);
  }

  /** Nothing has been reserved or released yet. */
  lemma StagedIsSettled(p: Plan, fs: E.Fs, i: nat)
    requires Planned(p) && i < |p.moves|
    ensures C.Settled(p.allocated0, p.moves[i], false)
  {
    hide Planned;
    R.InitialStatus(p, i);
  }

  datatype RunResult = Unfinished(why: StageResult) | Ran(outcome: CommitOutcome)

  /**
   Staging followed by the commit, each as the program starts it. No crash during either loses a
   file, no assumption about the checksum is made, and a run that is not cancelled and meets no
   failing device completes: every owner at its destination, every file as before, and a journal
   the validator accepts.
   */
  method StageThenCommit(d: D.Disk, log: C.Log, geo: D.Geometry, moves: seq<OwnerMove>, checked: bool, workers: nat, verify: bool,
                         crc: seq<E.Block> -> nat, leaveDirty: bool, ghost p: Plan)
    returns (r: RunResult, staging: D.FsDevice, committing: D.FsDevice)
    requires Planned(p) && Identified(moves) && moves == p.moves && workers > 0
    requires d.fs == p.fs0 && d.used == p.allocated0 && D.GeometryOk(geo) && geo.blocks == p.fs0.blocksCount
    requires D.Marked(d, true) && !checked ==> D.CountsAgree(geo, d)
    requires log.entries == [] && !log.failed
    modifies log
    ensures fresh(staging) && fresh(committing) && (r.Unfinished? || r == Ran(Ended(R.Complete)) ==> WellOrdered(log.entries))
    ensures StageGuards(p, staging.trace)
    ensures r.Ran? ==> D.Guards(p.(fs0 := staging.view.fs), geo, committing.trace)
    ensures r == Unfinished(NothingToStage) <==> moves == []
    ensures r == Unfinished(NotClean) <==> moves != [] && !D.Marked(d, true)
    ensures r == Unfinished(Miscounted) <==> moves != [] && D.Marked(d, true) && checked && !D.CountsAgree(geo, d)
    ensures r.Unfinished? ==> r.why in {NothingToStage, NotClean, Miscounted, Stopped, Interrupted, Broken}
    ensures r.Unfinished? ==> committing.view == d
    ensures r.Ran? ==> r.outcome.Ended?
    ensures r.Ran? && C.LogicallyApart(p.fs0) ==> r.outcome.result == R.Complete || r.outcome.result == R.Paused || r.outcome.result == R.Broken
    ensures r == Unfinished(Interrupted) ==> !staging.failed && !committing.failed
    ensures r != Unfinished(Interrupted) ==>
      (r == Unfinished(Broken) || r == Ran(Ended(R.Broken)) <==> staging.failed || committing.failed || log.failed)
    ensures r == Ran(Ended(R.Complete)) ==>
      forall ino, logical :: ino in p.fs0.roots ==> E.Read(committing.view.fs, ino, logical) == E.Read(p.fs0, ino, logical)
    ensures r == Ran(Ended(R.Complete)) ==> C.Relocated(p, committing.view.used)
    ensures r == Ran(Ended(R.Complete)) ==> LastPhase(log.entries) == PhaseCode(Compacted) && (!leaveDirty ==> EndsClean(log.entries))
  {
    hide Planned, Identified, WellOrdered, LastPhase, EndsClean, D.CountsAgree, D.Guards, C.LogicallyApart, C.Relocated, StageGuards, OnlyDestinations, SumsOfSource, SumMatches, ExactCopy, R.Resumable, R.ComesRight, R.StagesSealed, JournalTrusted, AllRecorded, R.Finished, E.Read, RejectedFor, AllReady, AllJournalled, D.Marked, StageGuarded;
    staging := new D.FsDevice(d);
    committing := new D.FsDevice(d);
    StartRest(p, d);
    CleanMark(d);
    assert StageGuards(p, staging.trace) by { OneGuard(p, staging); }
    var s := StageRelocation(staging, log, geo, moves, false, Prepared, checked, workers, verify, crc, p);
    if s != AllStaged { return Unfinished(s), staging, committing; }
    committing := new D.FsDevice(staging.view);
    ghost var q := p.(fs0 := staging.view.fs);
    ReadyToCommit(committing, p, d, geo, crc, log.entries);
    ghost var rs := log.entries;
    ghost var none: E.Moves := map[];
    assert none.Keys == {};
    var outcome := CommitStaged(committing, log, geo, Staged, moves, crc, true, leaveDirty, q, none);
    ReadyIsJournalled(rs, moves);
    NothingUnrecorded(rs, q, moves);
    if outcome.Ended? && outcome.result.Rejected? && C.LogicallyApart(p.fs0) { NotRejected(p, staging.view, geo, crc, rs, outcome.result.why); }
    if outcome == Ended(R.Complete) { ReadsAtEnd(p, q, committing.view); }
    r := Ran(outcome);
  }

  lemma CleanMark(d: D.Disk)
    ensures D.Marked(d, true) <==> d.super.Super? && d.super.clean
  {
  }

  lemma OneGuard(p: Plan, dev: D.FsDevice)
    requires |dev.trace| == 1 && StageGuarded(p, dev.trace[0])
    ensures StageGuards(p, dev.trace)
  {
    hide StageGuarded;
  }

  /** The staged disk, opened again, is one the commit may start from. */
  lemma ReadyToCommit(dev: D.FsDevice, p: Plan, d: D.Disk, geo: D.Geometry, crc: seq<E.Block> -> nat, rs: seq<Record>)
    requires Planned(p) && D.GeometryOk(geo) && geo.blocks == p.fs0.blocksCount && D.Marked(d, true) && D.CountsAgree(geo, d)
    requires d.used == p.allocated0 && dev.durable == dev.view && dev.trace == [(dev.view, dev.view)]
    requires Unstaged(p, dev.view) && dev.view == d.(fs := dev.view.fs)
    requires forall i :: 0 <= i < |p.moves| ==> ExactCopy(p, dev.view.fs, p.moves[i])
    ensures var q := p.(fs0 := dev.view.fs);
      && R.Resumable(dev, q, geo, map[]) && R.ComesRight(q, geo, dev.view) && R.StagesSealed(geo, dev.view, q.moves) && JournalTrusted(q, crc, rs)
  {
    hide Planned, OnlyDestinations, ExactCopy, JournalTrusted, Safe, Undamaged, D.TotalFree, D.CountsAgree, R.ComesRight, R.StagesSealed, D.Guarded;
    var q := p.(fs0 := dev.view.fs);
    StagingInvisible(p, dev.view.fs);
    SafeInitially(q);
    WholeAtStart(q);
    SameBlocks(p, dev.view.fs);
    assert D.CountsAgree(geo, dev.view) by { R.SameCounts(geo, d, dev.view); }
    R.AgreeingComesRight(q, geo, dev.view);
    D.RestGuarded(q, geo, map[], dev.view);
    ExactIsTrusted(p, dev.view.fs, crc, rs);
  }

  lemma SameBlocks(p: Plan, fs: E.Fs)
    requires OnlyDestinations(p.fs0, fs, p.moves)
    ensures fs.blocksCount == p.fs0.blocksCount && fs.roots == p.fs0.roots
  {
  }

  lemma WholeAtStart(p: Plan)
    ensures Undamaged(p, map[], p.fs0)
  {
    hide InTree;
    forall ino, l | InTree(p.fs0, ino, l) ensures E.At(p.fs0, E.MovedLoc(map[], l)) != E.Damaged {
      NodeIsTree(p.fs0, ino, l);
      assert E.MovedLoc(map[], l) == l;
    }
  }

  lemma ReadyIsJournalled(rs: seq<Record>, moves: seq<OwnerMove>)
    requires WellOrdered(rs) && AllReady(rs, moves) && Identified(moves)
    ensures AllJournalled(rs, moves)
  {
    hide WellOrdered, Ready, Journalled;
    forall i | 0 <= i < |moves| ensures Journalled(rs, moves[i]) { OneJournalled(rs, moves[i]); }
  }

  lemma OneJournalled(rs: seq<Record>, m: OwnerMove)
    requires WellOrdered(rs) && Ready(rs, m)
    ensures Journalled(rs, m)
  {
    hide WellOrdered, IntentOf, LastVerified, InOrder;
    LastSeen(rs, m.transaction);
    var r := LastVerified(rs, m.transaction).value;
    var j :| 0 <= j < |rs| && rs[j] == r;
    WellOrderedAt(rs, j);
    IntentInOrder(rs[..j], r);
    IntentPrefix(rs, j, r.transaction);
  }

  lemma {:induction false} LastSeen(rs: seq<Record>, id: nat)
    requires Seen(rs, CopyVerified, id)
    ensures LastVerified(rs, id).Some?
    decreases |rs|
  {
    var k :| 0 <= k < |rs| && rs[k].kind == CopyVerified && rs[k].transaction == id;
    var n := |rs| - 1;
    if k < n {
      assert rs[..n][k] == rs[k];
      LastSeen(rs[..n], id);
    }
  }

  lemma NothingUnrecorded(rs: seq<Record>, q: Plan, moves: seq<OwnerMove>)
    ensures AllRecorded(rs, q.allocated0, {}, moves)
  {
  }

  /** After staging nothing gives the commit a reason to refuse. */
  lemma NotRejected(p: Plan, d: D.Disk, geo: D.Geometry, crc: seq<E.Block> -> nat, rs: seq<Record>, why: C.Refusal)
    requires Planned(p) && OnlyDestinations(p.fs0, d.fs, p.moves) && C.LogicallyApart(p.fs0) && SumsOfSource(p, crc, rs)
    requires forall i :: 0 <= i < |p.moves| ==> SumMatches(p, d.fs, crc, p.moves[i])
    requires D.GeometryOk(geo) && d.used == p.allocated0 && R.StagesSealed(geo, d, p.moves)
    ensures !RejectedFor(rs, p.(fs0 := d.fs), geo, d, map[], crc, why)
  {
    hide Planned, OnlyDestinations, C.LogicallyApart, SumsOfSource, SumMatches, C.Settled, C.StaleCopy, R.StagesSealed;
    var q := p.(fs0 := d.fs);
    StillApart(p, d.fs);
    forall sums | |sums| == |p.moves| && SumsFrom(rs, p.moves, sums) ensures !R.Justified(q, geo, d, map[], crc, sums, why) {
      forall i | 0 <= i < |p.moves| ensures !C.StaleCopy(d.fs, p.moves[i], crc, sums[i]) && C.Settled(p.allocated0, p.moves[i], false) {
        StagedIsFresh(p, d.fs, crc, rs, sums, i);
        StagedIsSettled(p, d.fs, i);
      }
    }
  }

  lemma StillApart(p: Plan, fs: E.Fs)
    requires Planned(p) && OnlyDestinations(p.fs0, fs, p.moves) && C.LogicallyApart(p.fs0)
    ensures C.LogicallyApart(fs)
  {
    hide Planned, E.ScanInode, C.ExtentsApart;
    forall ino | ino in fs.roots && E.ScanInode(fs, ino).Scan? ensures C.ExtentsApart(E.ScanInode(fs, ino).extents) {
      ScanUnchanged(p, fs, ino);
    }
  }

  lemma ReadsAtEnd(p: Plan, q: Plan, d: D.Disk)
    requires Planned(p) && OnlyDestinations(p.fs0, q.fs0, p.moves) && q == p.(fs0 := q.fs0)
    requires exists rho :: R.Finished(q, rho, d)
    ensures forall ino, logical :: ino in p.fs0.roots ==> E.Read(d.fs, ino, logical) == E.Read(p.fs0, ino, logical)
    ensures C.Relocated(p, d.used)
  {
    hide Planned, OnlyDestinations, Safe, Undamaged, E.Read, C.MoveDone;
    var rho :| R.Finished(q, rho, d);
    StagingInvisible(p, q.fs0);
    SameBlocks(p, q.fs0);
    forall ino, logical | ino in p.fs0.roots ensures E.Read(d.fs, ino, logical) == E.Read(p.fs0, ino, logical) {
      SafeReads(q, rho, d.fs, d.used, ino, logical);
    }
    forall b ensures (C.InDestination(p, b) <==> C.InDestination(q, b)) && (C.InSource(p, b) <==> C.InSource(q, b)) { }
  }

  lemma StartRest(p: Plan, d: D.Disk)
    requires d.fs == p.fs0 && d.used == p.allocated0
    ensures Unstaged(p, d) && StageGuarded(p, (d, d))
  {
    StageStepGuarded(p, d, d);
  }
}
