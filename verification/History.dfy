/**
 The journals that staging and committing a relocation leave behind, and what the journal validator
 says about them (src/ext4/relocate.cpp, src/ext4/mutate.cpp, src/transaction/validate.cpp).
 */
module History {
  import opened Options
  import opened Arithmetic
  import opened Journal
  import opened Validate
  import opened Relocation
  import C = Commit
  import P = Planner
  import E = ExtentTree
  import D = CommitDisk
  import R = CommitRun
  import Z = Resize

  // ---------- what a clean journal means ----------

  lemma WellOrderedAppend(rs: seq<Record>, r: Record)
    ensures WellOrdered(rs + [r]) <==> WellOrdered(rs) && InOrder(rs, r)
  {
    hide InOrder;
    assert (rs + [r])[..|rs|] == rs;
  }

  lemma {:induction false} WellOrderedAt(rs: seq<Record>, j: nat)
    requires WellOrdered(rs) && j < |rs|
    ensures WellOrdered(rs[..j]) && InOrder(rs[..j], rs[j])
    decreases |rs|
  {
    hide InOrder;
    var init := rs[..|rs| - 1];
    if j < |init| {
      WellOrderedAt(init, j);
      assert init[..j] == rs[..j];
    }
  }

  /** Any prefix of a clean journal is clean: a crash that loses the newest records makes no error. */
  lemma PrefixWellOrdered(rs: seq<Record>, j: nat)
    requires WellOrdered(rs) && j <= |rs|
    ensures WellOrdered(rs[..j])
  {
    hide InOrder;
    if j < |rs| { WellOrderedAt(rs, j); } else { assert rs[..j] == rs; }
  }

  predicate Earlier(rs: seq<Record>, kind: RecordType, r: Record, i: nat, j: nat) {
    i < j <= |rs| && rs[i].kind == kind && rs[i].transaction == r.transaction && Geometry(rs[i], r)
  }

  lemma StepGeometry(rs: seq<Record>, r: Record, kind: RecordType)
    requires WellOrdered(rs) && InOrder(rs, r) && !Standalone(r.kind) && !Standalone(kind)
    requires Seen(rs, kind, r.transaction)
    ensures exists i :: Earlier(rs, kind, r, i, |rs|)
  {
    hide InOrder, WellOrdered, IntentOf, Standalone;
    var i :| 0 <= i < |rs| && rs[i].kind == kind && rs[i].transaction == r.transaction;
    StepAt(rs, r, kind, i);
  }

  lemma StepAt(rs: seq<Record>, r: Record, kind: RecordType, i: nat)
    requires WellOrdered(rs) && InOrder(rs, r) && !Standalone(r.kind) && !Standalone(kind)
    requires i < |rs| && rs[i].kind == kind && rs[i].transaction == r.transaction
    ensures Earlier(rs, kind, r, i, |rs|)
  {
    hide InOrder, WellOrdered, IntentOf, Standalone;
    WellOrderedAt(rs, i);
    IntentInOrder(rs[..i], rs[i]);
    IntentInOrder(rs, r);
    IntentPrefix(rs, i + 1, r.transaction);
    assert rs[..i + 1] == rs[..i] + [rs[i]];
    IntentAppend(rs[..i], rs[i], r.transaction);
  }

  lemma IntentInOrder(rs: seq<Record>, r: Record)
    requires InOrder(rs, r) && !Standalone(r.kind)
    ensures IntentOf(rs, r.transaction).Some? ==> Geometry(IntentOf(rs, r.transaction).value, r)
    ensures IntentOf(rs, r.transaction).None? ==> r.kind == RelocationIntent
  {
    hide Seen, IntentOf;
  }

  /** The first intent does not change as records are added. */
  lemma {:induction false} IntentPrefix(rs: seq<Record>, n: nat, id: nat)
    requires n <= |rs|
    ensures IntentOf(rs[..n], id).Some? ==> IntentOf(rs, id) == IntentOf(rs[..n], id)
    decreases |rs|
  {
    if n == |rs| {
      assert rs[..n] == rs;
    } else {
      var init := rs[..|rs| - 1];
      IntentPrefix(init, n, id);
      assert init[..n] == rs[..n] && rs == init + [rs[|rs| - 1]];
      IntentAppend(init, rs[|rs| - 1], id);
    }
  }

  lemma IntentIsSeen(rs: seq<Record>, id: nat)
    requires IntentOf(rs, id).Some?
    ensures Seen(rs, RelocationIntent, id)
  {
    var r := IntentOf(rs, id).value;
    var j :| 0 <= j < |rs| && rs[j] == r;
  }

  /** The record a step of this kind needs before it. */
  function Needs(kind: RecordType): RecordType {
    match kind
    case SourceReleased => OwnerSwitched
    case OwnerSwitched => CopyVerified
    case MetadataCommitted => CopyVerified
    case _ => RelocationIntent
  }

  /**
   Every step in a clean journal comes after the step it depends on, with the same geometry: a
   released source after its owner switch, an owner switch or a commit after a verified copy, and
   anything after an intent.
   */
  lemma CleanMeans(rs: seq<Record>, j: nat)
    requires WellOrdered(rs) && j < |rs| && !Standalone(rs[j].kind) && rs[j].kind != RelocationIntent
    ensures exists i :: Earlier(rs, RelocationIntent, rs[j], i, j)
    ensures exists i :: Earlier(rs, Needs(rs[j].kind), rs[j], i, j)
  {
    hide InOrder, Geometry;
    WellOrderedAt(rs, j);
    var before, r := rs[..j], rs[j];
    IntentInOrder(before, r);
    IntentIsSeen(before, r.transaction);
    StepNeeds(before, r);
    StepGeometry(before, r, RelocationIntent);
    StepGeometry(before, r, Needs(r.kind));
    var a :| Earlier(before, RelocationIntent, r, a, |before|);
    assert Earlier(rs, RelocationIntent, r, a, j);
    var b :| Earlier(before, Needs(r.kind), r, b, |before|);
    assert Earlier(rs, Needs(r.kind), r, b, j);
  }

  lemma StepNeeds(rs: seq<Record>, r: Record)
    requires InOrder(rs, r) && !Standalone(r.kind) && r.kind != RelocationIntent
    ensures Seen(rs, Needs(r.kind), r.transaction)
  {
    IntentIsSeen(rs, r.transaction);
  }

  // ---------- staging ----------

  /** What the planner gives every move: its own nonzero number, a length, and somewhere else to go. */
  predicate Identified(moves: seq<OwnerMove>) {
    && (forall i :: 0 <= i < |moves| ==> moves[i].transaction != 0 && moves[i].count != 0 && moves[i].source != moves[i].destination)
    && (forall i, j :: 0 <= i < j < |moves| ==> moves[i].transaction != moves[j].transaction)
  }

  /** Every plan the planner builds and the commit accepts is identified this way. */
  lemma PlannedIsIdentified(p: Plan)
    requires Planned(p) && P.Follows(p.moves, p.owners)
    ensures Identified(p.moves)
  {
    hide IsOwner, Sound;
    forall i | 0 <= i < |p.moves| ensures p.moves[i].count != 0 && p.moves[i].source != p.moves[i].destination {
      OwnerFacts(p.fs0, p.owners[i]);
      FreeIsApart(p, i, p.owners[i]);
    }
  }

  predicate Matches(m: OwnerMove, r: Record) {
    m.source == r.source && m.destination == r.destination && m.count == r.blocks && m.inode == r.inode
  }

  predicate Intended(rs: seq<Record>, m: OwnerMove) {
    var i := IntentOf(rs, m.transaction);
    m.transaction != 0 && i.Some? && Matches(m, i.value)
  }

  /** The move has an intent with its geometry and a verified copy. */
  predicate Ready(rs: seq<Record>, m: OwnerMove) {
    Intended(rs, m) && Seen(rs, CopyVerified, m.transaction)
  }

  predicate AllReady(rs: seq<Record>, moves: seq<OwnerMove>) {
    forall i :: 0 <= i < |moves| ==> Ready(rs, moves[i])
  }

  predicate AllIntended(rs: seq<Record>, moves: seq<OwnerMove>) {
    forall i :: 0 <= i < |moves| ==> Intended(rs, moves[i])
  }

  lemma IntendedAppend(rs: seq<Record>, r: Record, m: OwnerMove)
    requires Intended(rs, m)
    ensures Intended(rs + [r], m)
  {
    hide IntentOf;
    IntentAppend(rs, r, m.transaction);
  }

  lemma ReadyAppend(rs: seq<Record>, r: Record, m: OwnerMove)
    requires Ready(rs, m)
    ensures Ready(rs + [r], m)
  {
    hide Seen, Intended;
    IntendedAppend(rs, r, m);
    SeenAppend(rs, r, CopyVerified, m.transaction);
  }

  lemma AllIntendedAppend(rs: seq<Record>, r: Record, moves: seq<OwnerMove>)
    requires AllIntended(rs, moves)
    ensures AllIntended(rs + [r], moves)
  {
    hide Intended;
    forall i | 0 <= i < |moves| ensures Intended(rs + [r], moves[i]) {
      IntendedAppend(rs, r, moves[i]);
    }
  }

  lemma AllReadyAppend(rs: seq<Record>, r: Record, moves: seq<OwnerMove>)
    requires AllReady(rs, moves)
    ensures AllReady(rs + [r], moves)
  {
    hide Ready;
    forall i | 0 <= i < |moves| ensures Ready(rs + [r], moves[i]) {
      ReadyAppend(rs, r, moves[i]);
    }
  }

  lemma CheckpointFits(rs: seq<Record>, phase: Phase)
    ensures WellOrdered(rs + [CheckpointRecord(LastTransaction(rs), phase)]) <==> WellOrdered(rs)
  {
    WellOrderedAppend(rs, CheckpointRecord(LastTransaction(rs), phase));
  }

  function VerifiedRecord(m: OwnerMove, crc: nat): Record {
    C.MoveRecord(CopyVerified, m).(crc := crc)
  }

  lemma VerifiedFits(rs: seq<Record>, m: OwnerMove, crc: nat)
    requires WellOrdered(rs) && Intended(rs, m)
    ensures WellOrdered(rs + [VerifiedRecord(m, crc)]) && Ready(rs + [VerifiedRecord(m, crc)], m)
  {
    var r := VerifiedRecord(m, crc);
    hide IntentOf, Seen;
    WellOrderedAppend(rs, r);
    IntendedAppend(rs, r, m);
    SeenAppend(rs, r, CopyVerified, m.transaction);
  }

  lemma IntentFits(rs: seq<Record>, m: OwnerMove)
    requires WellOrdered(rs) && m.transaction != 0 && m.count != 0 && m.source != m.destination
    requires IntentOf(rs, m.transaction).None?
    ensures WellOrdered(rs + [C.MoveRecord(RelocationIntent, m)]) && Intended(rs + [C.MoveRecord(RelocationIntent, m)], m)
  {
    var r := C.MoveRecord(RelocationIntent, m);
    hide IntentOf, Seen;
    WellOrderedAppend(rs, r);
    IntentAppend(rs, r, m.transaction);
  }

  lemma NothingOrdered()
    ensures WellOrdered([])
  {
  }

  /** Each kind's latest record of every transaction, as the resume path collects them. */
  method Collect(rs: seq<Record>, kind: RecordType) returns (found: map<nat, Record>)
    ensures forall id :: id in found <==> Seen(rs, kind, id)
    ensures forall id :: id in found ==> found[id] in rs && found[id].kind == kind && found[id].transaction == id
    ensures kind == CopyVerified ==> forall id :: LastVerified(rs, id) == if id in found then Some(found[id]) else None
  {
    found := map[];
    for k := 0 to |rs|
      invariant forall id :: id in found <==> Seen(rs[..k], kind, id)
      invariant forall id :: id in found ==> found[id] in rs && found[id].kind == kind && found[id].transaction == id
      invariant kind == CopyVerified ==> forall id :: LastVerified(rs[..k], id) == if id in found then Some(found[id]) else None
    {
      hide Seen;
      assert rs[..k + 1][..k] == rs[..k];
      assert rs[..k + 1] == rs[..k] + [rs[k]];
      forall id ensures Seen(rs[..k + 1], kind, id) <==> Seen(rs[..k], kind, id) || (rs[k].kind == kind && rs[k].transaction == id) {
        SeenAppend(rs[..k], rs[k], kind, id);
      }
      if rs[k].kind == kind { found := found[rs[k].transaction := rs[k]]; }
    }
    assert rs[..|rs|] == rs;
  }

  lemma IntentGeometry(rs: seq<Record>, r: Record)
    requires WellOrdered(rs) && r in rs && r.kind == RelocationIntent
    ensures r.transaction != 0 && IntentOf(rs, r.transaction).Some? && Geometry(IntentOf(rs, r.transaction).value, r)
  {
    hide WellOrdered, Seen, IntentOf;
    var j :| 0 <= j < |rs| && rs[j] == r;
    WellOrderedAt(rs, j);
    IntentPrefix(rs, j + 1, r.transaction);
    assert rs[..j + 1] == rs[..j] + [r];
    IntentAppend(rs[..j], r, r.transaction);
  }

  lemma ReadyParts(rs: seq<Record>, m: OwnerMove)
    requires Intended(rs, m) && Seen(rs, CopyVerified, m.transaction)
    ensures Ready(rs, m)
  {
  }

  // ---------- committing ----------

  /** The records of one move fit exactly when a release without a switch finds the switch recorded. */
  lemma EmittedFits(rs: seq<Record>, m: OwnerMove, reserve: bool, switch: bool, release: bool)
    requires WellOrdered(rs) && Ready(rs, m)
    ensures WellOrdered(rs + C.Emitted(m, reserve, switch, release))
      <==> (release && !switch ==> Seen(rs, OwnerSwitched, m.transaction))
  {
    hide WellOrdered, InOrder, Seen, Ready;
    var id := m.transaction;
    var a := if reserve then rs + [C.MoveRecord(DestinationReserved, m)] else rs;
    if reserve { RecordFits(rs, m, DestinationReserved); }
    var b := if switch then a + [C.MoveRecord(OwnerSwitched, m)] else a;
    if switch { RecordFits(a, m, OwnerSwitched); }
    var c := if release then b + [C.MoveRecord(SourceReleased, m)] else b;
    assert Seen(b, OwnerSwitched, id) <==> switch || Seen(rs, OwnerSwitched, id);
    if release { RecordFits(b, m, SourceReleased); }
    RecordFits(c, m, MetadataCommitted);
    assert rs + C.Emitted(m, reserve, switch, release) == c + [C.MoveRecord(MetadataCommitted, m)];
  }

  lemma RecordFits(rs: seq<Record>, m: OwnerMove, kind: RecordType)
    requires Ready(rs, m)
    requires kind == DestinationReserved || kind == OwnerSwitched || kind == SourceReleased || kind == MetadataCommitted
    ensures var next := rs + [C.MoveRecord(kind, m)];
      && Ready(next, m)
      && (Seen(next, OwnerSwitched, m.transaction) <==> kind == OwnerSwitched || Seen(rs, OwnerSwitched, m.transaction))
      && (WellOrdered(next) <==> WellOrdered(rs) && (kind == SourceReleased ==> Seen(rs, OwnerSwitched, m.transaction)))
  {
    hide WellOrdered, Seen, IntentOf;
    var r := C.MoveRecord(kind, m);
    ReadyAppend(rs, r, m);
    SeenAppend(rs, r, OwnerSwitched, m.transaction);
    WellOrderedAppend(rs, r);
  }

  lemma {:induction false} ReadyExtend(rs: seq<Record>, more: seq<Record>, m: OwnerMove)
    requires Ready(rs, m)
    requires forall k :: 0 <= k < |more| ==> more[k].kind != OwnerSwitched || more[k].transaction != m.transaction
    ensures Ready(rs + more, m)
    ensures Seen(rs + more, OwnerSwitched, m.transaction) <==> Seen(rs, OwnerSwitched, m.transaction)
    decreases |more|
  {
    hide Ready, Seen;
    if more == [] {
      assert rs + more == rs;
    } else {
      var n := |more| - 1;
      ReadyExtend(rs, more[..n], m);
      assert rs + more == (rs + more[..n]) + [more[n]];
      ReadyAppend(rs + more[..n], more[n], m);
      SeenAppend(rs + more[..n], more[n], OwnerSwitched, m.transaction);
    }
  }

  /** The move was found switched and its source not free, yet no switch was ever recorded. */
  predicate Unrecorded(rs: seq<Record>, used: set<nat>, switched: set<nat>, m: OwnerMove) {
    m.source in switched && !C.Clear(used, m.source, m.count) && !Seen(rs, OwnerSwitched, m.transaction)
  }

  predicate AllRecorded(rs: seq<Record>, used: set<nat>, switched: set<nat>, moves: seq<OwnerMove>) {
    forall i :: 0 <= i < |moves| ==> !Unrecorded(rs, used, switched, moves[i])
  }

  predicate Good(rs: seq<Record>, moves: seq<OwnerMove>, order: seq<nat>, used: set<nat>, switched: set<nat>, k: nat)
    requires k <= |order| && forall j :: 0 <= j < |order| ==> order[j] < |moves|
  {
    forall j :: 0 <= j < k ==> !Unrecorded(rs, used, switched, moves[order[j]])
  }

  lemma EmittedKinds(m: OwnerMove, a: bool, b: bool, c: bool)
    ensures forall k :: 0 <= k < |C.Emitted(m, a, b, c)| ==> C.Emitted(m, a, b, c)[k].transaction == m.transaction
  {
  }

  lemma UnorderedStays(rs: seq<Record>, more: seq<Record>)
    ensures WellOrdered(rs + more) ==> WellOrdered(rs)
  {
    hide InOrder;
    if WellOrdered(rs + more) {
      PrefixWellOrdered(rs + more, |rs|);
      assert (rs + more)[..|rs|] == rs;
    }
  }

  lemma {:induction false} MovesFit(rs: seq<Record>, moves: seq<OwnerMove>, order: seq<nat>, used: set<nat>, switched: set<nat>, k: nat)
    requires Identified(moves) && C.IsOrder(|moves|, order) && k <= |order| && WellOrdered(rs) && AllReady(rs, moves)
    ensures var more := R.RunRecords(moves, order, used, switched, k);
      && (WellOrdered(rs + more) <==> Good(rs, moves, order, used, switched, k))
      && (forall j :: k <= j < |order| ==> Apart(more, moves[order[j]].transaction))
    decreases k
  {
    hide WellOrdered, Ready, Seen, InOrder, C.Emitted, Apart;
    if k == 0 {
      assert rs + R.RunRecords(moves, order, used, switched, k) == rs;
      forall j | 0 <= j < |order| ensures Apart([], moves[order[j]].transaction) { NothingApart(moves[order[j]].transaction); }
    } else {
      MovesFit(rs, moves, order, used, switched, k - 1);
      var more := R.RunRecords(moves, order, used, switched, k - 1);
      var m := moves[order[k - 1]];
      var last := C.StageRecords(used, m, m.source in switched);
      forall j | k <= j < |order| ensures Apart(more + last, moves[order[j]].transaction) {
        assert order[j] != order[k - 1];
        ApartExtend(more, m, used, m.source in switched, moves[order[j]].transaction);
      }
      assert rs + (more + last) == (rs + more) + last;
      if WellOrdered(rs + more) {
        MoveFits(rs, more, m, used, m.source in switched);
      } else {
        UnorderedStays(rs + more, last);
      }
    }
  }

  /** No record here belongs to the transaction. */
  predicate Apart(more: seq<Record>, id: nat) {
    forall k :: 0 <= k < |more| ==> more[k].transaction != id
  }

  lemma NothingApart(id: nat)
    ensures Apart([], id)
  {
  }

  lemma ApartExtend(more: seq<Record>, m: OwnerMove, used: set<nat>, switched: bool, id: nat)
    requires Apart(more, id) && m.transaction != id
    ensures Apart(more + C.StageRecords(used, m, switched), id)
  {
    var a, b, c := !C.Full(used, m.destination, m.count), !switched, !C.Clear(used, m.source, m.count);
    hide C.Emitted, C.Full, C.Clear;
    EmittedKinds(m, a, b, c);
  }

  lemma MoveFits(rs: seq<Record>, more: seq<Record>, m: OwnerMove, used: set<nat>, switched: bool)
    requires Ready(rs, m) && WellOrdered(rs + more) && Apart(more, m.transaction)
    ensures WellOrdered(rs + more + C.StageRecords(used, m, switched))
      <==> !(switched && !C.Clear(used, m.source, m.count) && !Seen(rs, OwnerSwitched, m.transaction))
  {
    hide WellOrdered, Ready, Seen, C.Emitted, C.Full, C.Clear;
    ReadyExtend(rs, more, m);
    EmittedFits(rs + more, m, !C.Full(used, m.destination, m.count), !switched, !C.Clear(used, m.source, m.count));
  }

  /** The journal of a completed commit over the journal `rs` it found. */
  function CommitJournal(rs: seq<Record>, moves: seq<OwnerMove>, order: seq<nat>, used: set<nat>, switched: set<nat>, clean: bool, leaveDirty: bool): seq<Record>
    requires forall j :: 0 <= j < |order| ==> order[j] < |moves|
  {
    R.Closed(R.Opened(rs, clean) + R.RunRecords(moves, order, used, switched, |order|), leaveDirty)
  }

  lemma OpenedFits(rs: seq<Record>, clean: bool, moves: seq<OwnerMove>)
    requires WellOrdered(rs) && AllReady(rs, moves)
    ensures WellOrdered(R.Opened(rs, clean)) && AllReady(R.Opened(rs, clean), moves)
    ensures forall id :: Seen(R.Opened(rs, clean), OwnerSwitched, id) <==> Seen(rs, OwnerSwitched, id)
  {
    hide WellOrdered, AllReady, Seen, IntentOf, LastTransaction;
    var d := C.MoveRecord(MarkedDirty, R.NO_MOVE);
    var e := if clean then rs + [d] else rs;
    if clean {
      WellOrderedAppend(rs, d);
      AllReadyAppend(rs, d, moves);
    }
    CheckpointFits(e, MetadataFinalize);
    var c := CheckpointRecord(LastTransaction(e), MetadataFinalize);
    AllReadyAppend(e, c, moves);
    forall id ensures Seen(R.Opened(rs, clean), OwnerSwitched, id) <==> Seen(rs, OwnerSwitched, id) {
      SeenAppend(rs, d, OwnerSwitched, id);
      SeenAppend(e, c, OwnerSwitched, id);
    }
  }

  lemma ClosedFits(rs: seq<Record>, leaveDirty: bool)
    ensures WellOrdered(R.Closed(rs, leaveDirty)) <==> WellOrdered(rs)
  {
    hide WellOrdered, Seen, IntentOf, LastTransaction;
    var d := C.MoveRecord(MarkedClean, R.NO_MOVE);
    WellOrderedAppend(rs, d);
    var e := if leaveDirty then rs else rs + [d];
    CheckpointFits(e, Compacted);
  }

  /**
   A completed commit, first or resumed, leaves a clean journal exactly when every move it found
   switched with its source still allocated already had its switch recorded.
   */
  lemma CommitCleanIff(rs: seq<Record>, moves: seq<OwnerMove>, order: seq<nat>, used: set<nat>, switched: set<nat>, clean: bool, leaveDirty: bool)
    requires Identified(moves) && C.IsOrder(|moves|, order) && WellOrdered(rs) && AllReady(rs, moves)
    ensures WellOrdered(CommitJournal(rs, moves, order, used, switched, clean, leaveDirty))
      <==> AllRecorded(rs, used, switched, moves)
  {
    hide WellOrdered, AllReady, Seen, R.Opened, R.Closed, R.RunRecords, C.Clear;
    OpenedFits(rs, clean, moves);
    var open := R.Opened(rs, clean);
    MovesFit(open, moves, order, used, switched, |order|);
    ClosedFits(open + R.RunRecords(moves, order, used, switched, |order|), leaveDirty);
    if Good(open, moves, order, used, switched, |order|) {
      forall i | 0 <= i < |moves| ensures !Unrecorded(rs, used, switched, moves[i]) {
        assert i in order;
        var j :| 0 <= j < |order| && order[j] == i;
        assert !Unrecorded(open, used, switched, moves[order[j]]);
      }
    } else {
      var j :| 0 <= j < |order| && Unrecorded(open, used, switched, moves[order[j]]);
      assert Unrecorded(rs, used, switched, moves[order[j]]);
    }
  }

  // ---------- what a finished commit has recorded ----------

  /** Every stage the run had to do for the move is in the journal, and that the move is committed. */
  predicate Logged(rs: seq<Record>, used: set<nat>, switched: set<nat>, m: OwnerMove) {
    && Seen(rs, MetadataCommitted, m.transaction)
    && (!C.Full(used, m.destination, m.count) ==> Seen(rs, DestinationReserved, m.transaction))
    && (m.source !in switched ==> Seen(rs, OwnerSwitched, m.transaction))
    && (!C.Clear(used, m.source, m.count) ==> Seen(rs, SourceReleased, m.transaction))
  }

  lemma SeenWithin(a: seq<Record>, b: seq<Record>, c: seq<Record>, kind: RecordType, id: nat)
    requires Seen(b, kind, id)
    ensures Seen(a + b + c, kind, id)
  {
    var j :| 0 <= j < |b| && b[j].kind == kind && b[j].transaction == id;
    assert (a + b + c)[|a| + j] == b[j];
  }

  lemma LoggedWithin(a: seq<Record>, b: seq<Record>, c: seq<Record>, used: set<nat>, switched: set<nat>, m: OwnerMove)
    requires Logged(b, used, switched, m)
    ensures Logged(a + b + c, used, switched, m)
  {
    hide Seen, C.Full, C.Clear;
    SeenWithin(a, b, c, MetadataCommitted, m.transaction);
    if Seen(b, DestinationReserved, m.transaction) { SeenWithin(a, b, c, DestinationReserved, m.transaction); }
    if Seen(b, OwnerSwitched, m.transaction) { SeenWithin(a, b, c, OwnerSwitched, m.transaction); }
    if Seen(b, SourceReleased, m.transaction) { SeenWithin(a, b, c, SourceReleased, m.transaction); }
  }

  lemma EmittedSeen(m: OwnerMove, reserve: bool, switch: bool, release: bool)
    ensures var rs := C.Emitted(m, reserve, switch, release);
      && Seen(rs, MetadataCommitted, m.transaction)
      && (reserve ==> Seen(rs, DestinationReserved, m.transaction)) && (switch ==> Seen(rs, OwnerSwitched, m.transaction))
      && (release ==> Seen(rs, SourceReleased, m.transaction))
  {
    var rs := C.Emitted(m, reserve, switch, release);
    var n := |rs| - 1;
    assert rs[n] == C.MoveRecord(MetadataCommitted, m);
    if reserve { assert rs[0] == C.MoveRecord(DestinationReserved, m); }
    if switch { assert rs[if reserve then 1 else 0] == C.MoveRecord(OwnerSwitched, m); }
    if release { assert rs[n - 1] == C.MoveRecord(SourceReleased, m); }
  }

  lemma {:induction false} RunLogged(moves: seq<OwnerMove>, order: seq<nat>, used: set<nat>, switched: set<nat>, k: nat, j: nat)
    requires j < k <= |order| && forall j :: 0 <= j < |order| ==> order[j] < |moves|
    ensures Logged(R.RunRecords(moves, order, used, switched, k), used, switched, moves[order[j]])
    decreases k
  {
    hide Logged, C.Emitted, C.Full, C.Clear;
    var m := moves[order[k - 1]];
    var before, last := R.RunRecords(moves, order, used, switched, k - 1), C.StageRecords(used, m, m.source in switched);
    if j < k - 1 {
      RunLogged(moves, order, used, switched, k - 1, j);
      LoggedWithin([], before, last, used, switched, moves[order[j]]);
      assert [] + before + last == before + last;
    } else {
      assert Logged(last, used, switched, m) by { StageLogged(used, switched, m); }
      LoggedWithin(before, last, [], used, switched, m);
      assert before + last + [] == before + last;
    }
  }

  lemma StageLogged(used: set<nat>, switched: set<nat>, m: OwnerMove)
    ensures Logged(C.StageRecords(used, m, m.source in switched), used, switched, m)
  {
    hide C.Emitted, C.Full, C.Clear, Seen;
    EmittedSeen(m, !C.Full(used, m.destination, m.count), m.source !in switched, !C.Clear(used, m.source, m.count));
  }

  /** The journal of a completed commit has every stage of every move. */
  lemma CommitLogged(rs: seq<Record>, moves: seq<OwnerMove>, order: seq<nat>, used: set<nat>, switched: set<nat>, clean: bool, leaveDirty: bool, i: nat)
    requires C.IsOrder(|moves|, order) && i < |moves|
    ensures Logged(CommitJournal(rs, moves, order, used, switched, clean, leaveDirty), used, switched, moves[i])
  {
    hide Logged, R.RunRecords, LastTransaction, R.Opened;
    assert i in order;
    var j :| 0 <= j < |order| && order[j] == i;
    RunLogged(moves, order, used, switched, |order|, j);
    var a, b := R.Opened(rs, clean), R.RunRecords(moves, order, used, switched, |order|);
    var all := CommitJournal(rs, moves, order, used, switched, clean, leaveDirty);
    var c := all[|a + b|..];
    assert all == a + b + c;
    LoggedWithin(a, b, c, used, switched, moves[i]);
  }

  // ---------- a first commit raises no warning ----------

  lemma EmittedQuiet(rs: seq<Record>, m: OwnerMove)
    requires Seen(rs, CopyVerified, m.transaction)
    ensures Warnings(rs + C.Emitted(m, true, true, true)) == Warnings(rs)
  {
    hide Seen, Warnings, EndsDirty, EndsClean, LastPhase, WellOrdered, InOrder;
    var id := m.transaction;
    var r1, r2, r3, r4 := C.MoveRecord(DestinationReserved, m), C.MoveRecord(OwnerSwitched, m), C.MoveRecord(SourceReleased, m), C.MoveRecord(MetadataCommitted, m);
    var a := rs + [r1];
    var b := a + [r2];
    var c := b + [r3];
    Extended(rs, r1);
    Extended(a, r2);
    Extended(b, r3);
    Extended(c, r4);
    SeenAppend(a, r2, OwnerSwitched, id);
    SeenAppend(b, r3, OwnerSwitched, id);
    SeenAppend(b, r3, SourceReleased, id);
    assert rs + C.Emitted(m, true, true, true) == c + [r4];
  }

  /** No stage of the move has been done. */
  predicate Unstarted(used: set<nat>, m: OwnerMove) {
    !C.Full(used, m.destination, m.count) && !C.Clear(used, m.source, m.count)
  }

  lemma {:induction false} RunQuiet(rs: seq<Record>, moves: seq<OwnerMove>, order: seq<nat>, used: set<nat>, k: nat)
    requires k <= |order| && forall j :: 0 <= j < |order| ==> order[j] < |moves|
    requires forall i :: 0 <= i < |moves| ==> Seen(rs, CopyVerified, moves[i].transaction) && Unstarted(used, moves[i])
    ensures Warnings(rs + R.RunRecords(moves, order, used, {}, k)) == Warnings(rs)
    decreases k
  {
    hide Seen, Warnings, C.Emitted, C.Full, C.Clear;
    var more := R.RunRecords(moves, order, used, {}, k);
    if k == 0 {
      assert rs + more == rs;
    } else {
      RunQuiet(rs, moves, order, used, k - 1);
      var before, m := R.RunRecords(moves, order, used, {}, k - 1), moves[order[k - 1]];
      assert Unstarted(used, m);
      SeenWithin([], rs, before, CopyVerified, m.transaction);
      assert [] + rs + before == rs + before;
      EmittedQuiet(rs + before, m);
      assert rs + more == rs + before + C.Emitted(m, true, true, true);
    }
  }

  /** A commit from the staged state adds nothing the validator warns about. */
  lemma FirstCommitQuiet(rs: seq<Record>, moves: seq<OwnerMove>, order: seq<nat>, used: set<nat>, leaveDirty: bool)
    requires forall j :: 0 <= j < |order| ==> order[j] < |moves|
    requires forall i :: 0 <= i < |moves| ==> Seen(rs, CopyVerified, moves[i].transaction) && Unstarted(used, moves[i])
    ensures Warnings(CommitJournal(rs, moves, order, used, {}, true, leaveDirty)) == Warnings(rs)
    ensures LastPhase(CommitJournal(rs, moves, order, used, {}, true, leaveDirty)) == PhaseCode(Compacted)
  {
    hide Seen, Warnings, EndsDirty, EndsClean, LastPhase, WellOrdered, InOrder, R.RunRecords, LastTransaction, Unstarted, R.Silent;
    var d, c := C.MoveRecord(MarkedDirty, R.NO_MOVE), C.MoveRecord(MarkedClean, R.NO_MOVE);
    var open := R.Opened(rs, true);
    Extended(rs, d);
    Extended(rs + [d], CheckpointRecord(LastTransaction(rs + [d]), MetadataFinalize));
    forall i | 0 <= i < |moves| ensures Seen(open, CopyVerified, moves[i].transaction) {
      SeenWithin([], rs, open[|rs|..], CopyVerified, moves[i].transaction);
      assert [] + rs + open[|rs|..] == open;
    }
    RunQuiet(open, moves, order, used, |order|);
    var run := open + R.RunRecords(moves, order, used, {}, |order|);
    R.OpenedEnds(rs, true);
    R.MovesSilent(moves, order, used, {}, |order|);
    R.RecordsEnd(open, R.RunRecords(moves, order, used, {}, |order|));
    Extended(run, c);
    var e := if leaveDirty then run else run + [c];
    Extended(e, CheckpointRecord(LastTransaction(e), Compacted));
  }

  /** A shrink that finishes leaves a clean journal clean, recording a clean filesystem, so that it may become complete. */
  lemma ShrinkKeepsClean(rs: seq<Record>)
    requires WellOrdered(rs)
    ensures WellOrdered(Z.ShrinkJournal(rs)) && EndsClean(Z.ShrinkJournal(rs)) && !EndsDirty(Z.ShrinkJournal(rs))
    ensures LastPhase(Z.ShrinkJournal(rs)) == PhaseCode(FilesystemShrunk)
  {
    hide WellOrdered, Seen, IntentOf, LastTransaction, EndsClean, EndsDirty, LastPhase, Warnings;
    OpenedFits(rs, true, []);
    var o := R.Opened(rs, true);
    var d := C.MoveRecord(MarkedClean, R.NO_MOVE);
    var c := CheckpointRecord(LastTransaction(o + [d]), FilesystemShrunk);
    Extended(o, d);
    Extended(o + [d], c);
    WellOrderedAppend(o, d);
    CheckpointFits(o + [d], FilesystemShrunk);
    assert Z.ShrinkJournal(rs) == o + [d] + [c];
  }

  /** A commit that finds nothing switched leaves a clean journal. */
  lemma UninterruptedIsClean(rs: seq<Record>, moves: seq<OwnerMove>, order: seq<nat>, used: set<nat>, clean: bool, leaveDirty: bool)
    requires Identified(moves) && C.IsOrder(|moves|, order) && WellOrdered(rs) && AllReady(rs, moves)
    ensures WellOrdered(CommitJournal(rs, moves, order, used, {}, clean, leaveDirty))
  {
    hide WellOrdered, AllReady, Seen, CommitJournal;
    CommitCleanIff(rs, moves, order, used, {}, clean, leaveDirty);
  }

  /** A crash between a durable switch and its record: the resumed run completes with an invalid journal. */
  lemma LostSwitchRecord(rs: seq<Record>, m: OwnerMove, used: set<nat>, leaveDirty: bool)
    requires Identified([m]) && WellOrdered(rs) && AllReady(rs, [m]) && m.source in used
    requires !Seen(rs, OwnerSwitched, m.transaction)
    ensures !WellOrdered(CommitJournal(rs, [m], [0], used, {m.source}, false, leaveDirty))
  {
    hide WellOrdered, AllReady, Seen, CommitJournal;
    CommitCleanIff(rs, [m], [0], used, {m.source}, false, leaveDirty);
    assert m.count != 0 by { assert Identified([m]) && [m][0] == m; }
    assert m.source in Range(m.source, m.count);
    assert Unrecorded(rs, used, {m.source}, [m][0]);
  }

  // ---------- the commit, from the journal ----------

  /** A staged copy with a checksum the journal records is the copy of its source. */
  ghost predicate JournalTrusted(p: Plan, crc: seq<E.Block> -> nat, rs: seq<Record>) {
    forall i :: 0 <= i < |p.moves| && p.moves[i].kind == DataExtent && !p.moves[i].unwritten ==>
      CopyTrusted(p.fs0, p.moves[i], crc, rs)
  }

  ghost predicate CopyTrusted(fs: E.Fs, m: OwnerMove, crc: seq<E.Block> -> nat, rs: seq<Record>) {
    (exists r :: r in rs && r.kind == CopyVerified && r.transaction == m.transaction && r.crc == crc(C.Contents(fs, m.destination, m.count)))
      ==> C.Contents(fs, m.destination, m.count) == C.Contents(fs, m.source, m.count)
  }

  /** The move's last verified record has the move's geometry. */
  predicate Journalled(rs: seq<Record>, m: OwnerMove) {
    var r := LastVerified(rs, m.transaction);
    r.Some? && Matches(m, r.value)
  }

  /** The last verified record of a transaction. */
  function LastVerified(rs: seq<Record>, transaction: nat): (r: Option<Record>)
    ensures r.Some? ==> r.value in rs && r.value.kind == CopyVerified && r.value.transaction == transaction
  {
    if rs == [] then None
    else
      var n := |rs| - 1;
      if rs[n].kind == CopyVerified && rs[n].transaction == transaction then Some(rs[n]) else LastVerified(rs[..n], transaction)
  }

  /** Every move is journalled, and there are as many verified transactions as moves. */
  ghost predicate AllJournalled(rs: seq<Record>, moves: seq<OwnerMove>) {
    && (forall i :: 0 <= i < |moves| ==> Journalled(rs, moves[i]))
    && (forall i, j :: 0 <= i < j < |moves| ==> moves[i].transaction != moves[j].transaction)
  }

  /** The checksums of the moves' last verified records. */
  ghost predicate SumsFrom(rs: seq<Record>, moves: seq<OwnerMove>, sums: seq<nat>) {
    |sums| == |moves| && forall i :: 0 <= i < |moves| ==> SumFrom(rs, moves[i], sums[i])
  }

  ghost predicate SumFrom(rs: seq<Record>, m: OwnerMove, sum: nat) {
    var r := LastVerified(rs, m.transaction);
    r.Some? && r.value.crc == sum
  }

  /** The journalled checksum of every move, if each has a verified record with its own geometry. */
  method VerifiedSums(rs: seq<Record>, moves: seq<OwnerMove>, ghost p: Plan, ghost crc: seq<E.Block> -> nat) returns (ok: bool, sums: seq<nat>)
    requires moves == p.moves && forall i, j :: 0 <= i < j < |moves| ==> moves[i].transaction != moves[j].transaction
    ensures ok <==> AllJournalled(rs, moves)
    ensures ok ==> |sums| == |moves| && SumsFrom(rs, moves, sums)
    ensures ok && WellOrdered(rs) ==> AllReady(rs, moves)
    ensures ok && JournalTrusted(p, crc, rs) ==> C.Trusted(p, crc, sums)
  {
    hide WellOrdered, InOrder, Seen, IntentOf, Ready, CopyTrusted;
    sums := [];
    var verified := Collect(rs, CopyVerified);
    if |verified| < |moves| {
      if AllJournalled(rs, moves) { EnoughVerified(rs, moves, verified); }
      return false, [];
    }
    for k := 0 to |moves|
      invariant |sums| == k
      invariant forall i :: 0 <= i < k ==> Journalled(rs, moves[i]) && SumFrom(rs, moves[i], sums[i])
      invariant WellOrdered(rs) ==> forall i :: 0 <= i < k ==> Ready(rs, moves[i])
      invariant forall i :: 0 <= i < k && JournalTrusted(p, crc, rs) ==> SumTrusted(p, crc, i, sums[i])
    {
      var m := moves[k];
      if m.transaction !in verified || !Matches(m, verified[m.transaction]) {
        assert !Journalled(rs, m);
        return false, [];
      }
      if WellOrdered(rs) { VerifiedIsReady(rs, m, verified[m.transaction]); }
      assert SumFrom(rs, m, verified[m.transaction].crc);
      if JournalTrusted(p, crc, rs) { RecordTrusted(p, crc, rs, k, verified[m.transaction]); }
      sums := sums + [verified[m.transaction].crc];
    }
    ok := true;
    if JournalTrusted(p, crc, rs) { AllTrusted(p, crc, sums); }
  }

  /** Distinct journalled moves need as many entries. */
  lemma EnoughVerified(rs: seq<Record>, moves: seq<OwnerMove>, verified: map<nat, Record>)
    requires AllJournalled(rs, moves) && forall id :: LastVerified(rs, id).Some? ==> id in verified
    ensures |verified| >= |moves|
  {
    var ids := Transactions(moves);
    TransactionsCount(moves);
    forall id | id in ids ensures id in verified.Keys {
      var i :| 0 <= i < |moves| && moves[i].transaction == id;
      assert Journalled(rs, moves[i]);
    }
    SubsetSize(ids, verified.Keys);
    assert |verified| == |verified.Keys|;
  }

  function Transactions(moves: seq<OwnerMove>): set<nat> {
    set i | 0 <= i < |moves| :: moves[i].transaction
  }

  lemma {:induction false} TransactionsCount(moves: seq<OwnerMove>)
    requires forall i, j :: 0 <= i < j < |moves| ==> moves[i].transaction != moves[j].transaction
    ensures |Transactions(moves)| == |moves|
    decreases |moves|
  {
    if moves == [] {
      assert Transactions(moves) == {};
    } else {
      var n := |moves| - 1;
      var init := moves[..n];
      TransactionsCount(init);
      assert Transactions(moves) == Transactions(init) + {moves[n].transaction};
      assert moves[n].transaction !in Transactions(init);
    }
  }

  ghost predicate SumTrusted(p: Plan, crc: seq<E.Block> -> nat, i: nat, sum: nat)
    requires i < |p.moves|
  {
    var m := p.moves[i];
    m.kind == DataExtent && !m.unwritten && crc(C.Contents(p.fs0, m.destination, m.count)) == sum ==>
      C.Contents(p.fs0, m.destination, m.count) == C.Contents(p.fs0, m.source, m.count)
  }

  lemma AllTrusted(p: Plan, crc: seq<E.Block> -> nat, sums: seq<nat>)
    requires |sums| == |p.moves| && forall i :: 0 <= i < |sums| ==> SumTrusted(p, crc, i, sums[i])
    ensures C.Trusted(p, crc, sums)
  {
    hide C.Contents;
    forall i | 0 <= i < |p.moves| ensures SumTrusted(p, crc, i, sums[i]) { }
  }

  lemma RecordTrusted(p: Plan, crc: seq<E.Block> -> nat, rs: seq<Record>, i: nat, r: Record)
    requires JournalTrusted(p, crc, rs) && i < |p.moves| && r in rs && r.kind == CopyVerified && r.transaction == p.moves[i].transaction
    ensures SumTrusted(p, crc, i, r.crc)
  {
    hide C.Contents;
  }

  lemma VerifiedIsReady(rs: seq<Record>, m: OwnerMove, r: Record)
    requires WellOrdered(rs) && r in rs && r.kind == CopyVerified && r.transaction == m.transaction && Matches(m, r)
    ensures Ready(rs, m)
  {
    var j :| 0 <= j < |rs| && rs[j] == r;
    hide Seen, IntentOf;
    WellOrderedAt(rs, j);
    IntentPrefix(rs, j, r.transaction);
    assert Seen(rs, CopyVerified, m.transaction) by { SeenAt(rs, j); }
  }

  lemma SeenAt(rs: seq<Record>, j: nat)
    requires j < |rs|
    ensures Seen(rs, rs[j].kind, rs[j].transaction)
  {
  }

  datatype CommitOutcome = WrongPhase | NotStaged | AlreadyCompacted | Ended(result: R.CommitResult)

  predicate CommitPhase(phase: Phase) {
    phase == Staged || phase == MetadataFinalize || phase == MetadataPaused
  }

  /**
   commit_staged_relocation from the journal it opens, in order or not: the phase check, a verified
   record of the planned geometry for every move, and the commit. When it completes every owner is
   moved and every file reads as before, and the journal is clean exactly when it was and no move was
   found switched, unreleased and unrecorded.
   */
  method CommitStaged(dev: D.FsDevice, log: C.Log, geo: D.Geometry, phase: Phase, moves: seq<OwnerMove>, crc: seq<E.Block> -> nat,
                      verifyAfter: bool, leaveDirty: bool, ghost p: Plan, ghost rho0: E.Moves) returns (r: CommitOutcome)
    requires R.Resumable(dev, p, geo, rho0) && JournalTrusted(p, crc, log.entries) && moves == p.moves && Identified(moves)
    modifies dev, log
    ensures D.Shields(p, dev.trace) && C.Failing(dev.failed, log.failed, old(dev.failed), old(log.failed), r == Ended(R.Broken))
    ensures verifyAfter || leaveDirty || R.ComesRight(p, geo, old(dev.view)) ==> D.Guards(p, geo, dev.trace)
    ensures R.Entered(old(log.entries), log.entries) || R.OwnersKept(old(dev.trace), dev.trace, old(dev.view))
    ensures !r.Ended? ==> dev.view == old(dev.view) && dev.trace == old(dev.trace) && log.entries == old(log.entries)
    ensures r == WrongPhase <==> !CommitPhase(phase) && phase != Compacted
    ensures r == NotStaged <==> (CommitPhase(phase) || phase == Compacted) && !AllJournalled(old(log.entries), moves)
    ensures r == AlreadyCompacted <==> phase == Compacted && AllJournalled(old(log.entries), moves)
    ensures r.Ended? && r.result.Rejected? ==> RejectedFor(old(log.entries), p, geo, old(dev.view), rho0, crc, r.result.why)
    ensures r == Ended(R.Unverified) ==> verifyAfter && !R.ComesRight(p, geo, old(dev.view))
    ensures r == Ended(R.Complete) ==> exists rho :: R.Finished(p, rho, dev.view)
    ensures r == Ended(R.Complete) ==> LastPhase(log.entries) == PhaseCode(Compacted)
    ensures r == Ended(R.Complete) ==> forall i :: 0 <= i < |moves| ==> Logged(log.entries, old(dev.view).used, rho0.Keys, moves[i])
    ensures r == Ended(R.Complete) && !leaveDirty ==> EndsClean(log.entries)
    ensures r == Ended(R.Complete) && leaveDirty && old(dev.view).super.clean ==> EndsDirty(log.entries)
    ensures r == Ended(R.Paused) ==> LastPhase(log.entries) == PhaseCode(MetadataPaused)
    ensures r == Ended(R.Complete) ==> D.Marked(dev.view, !leaveDirty) && (D.CountsAgree(geo, dev.view) <==> R.ComesRight(p, geo, old(dev.view)))
    ensures r == Ended(R.Complete) ==>
      (WellOrdered(log.entries) <==> WellOrdered(old(log.entries)) && AllRecorded(old(log.entries), old(dev.view).used, rho0.Keys, moves))
  {
    hide WellOrdered, LastPhase, EndsClean, EndsDirty, Logged, AllReady, AllRecorded, AllJournalled, R.Resumable, R.ComesRight, R.Passable, R.Finished, C.LogicallyApart, D.Guards, D.Shields, D.CountsAgree, JournalTrusted, C.Trusted, R.PausedWithin, R.Justified, R.RunRecords, R.Opened, R.Closed;
    ghost var entries, view := log.entries, dev.view;
    ResumableGuards(dev, p, geo, rho0);
    if !CommitPhase(phase) && phase != Compacted { return WrongPhase; }
    var ok, sums := VerifiedSums(log.entries, moves, p, crc);
    if !ok { return NotStaged; }
    if phase == Compacted { return AlreadyCompacted; }
    var result: R.CommitResult;
    ghost var rho: E.Moves, order: seq<nat>;
    result, rho, order := R.CommitPlan(dev, log, geo, moves, crc, sums, verifyAfter, leaveDirty, p, rho0);
    if result == R.Complete {
      forall i | 0 <= i < |moves| ensures Logged(log.entries, view.used, rho0.Keys, moves[i]) {
        CommitLogged(entries, moves, order, view.used, rho0.Keys, view.super.clean, leaveDirty, i);
      }
      if WellOrdered(log.entries) { OrderedBefore(entries, log.entries); }
      if WellOrdered(entries) { CommitCleanIff(entries, moves, order, view.used, rho0.Keys, view.super.clean, leaveDirty); }
    }
    r := Ended(result);
  }

  /**
   The run behind LostSwitchRecord: the owner of a move is switched as the commit does it, power fails
   before the record is appended, and the commit is run again. It may complete, and never with a clean
   journal.
   */
  method SwitchThenCrash(dev: D.FsDevice, log: C.Log, geo: D.Geometry, moves: seq<OwnerMove>, crc: seq<E.Block> -> nat, k: nat, sums: seq<nat>,
                         leaveDirty: bool, ghost p: Plan, ghost rho: E.Moves)
    returns (switched: C.MoveResult, again: D.FsDevice, r: CommitOutcome)
    requires C.Rest(dev, p, geo, rho) && moves == p.moves && Identified(moves) && k < |moves| && moves[k].source !in rho
    requires |sums| == |moves| && C.Trusted(p, crc, sums) && JournalTrusted(p, crc, log.entries) && WellOrdered(log.entries)
    requires Range(moves[k].destination, moves[k].count) <= dev.view.used && C.Full(dev.view.used, moves[k].source, moves[k].count)
    requires C.Lookup(dev.view.fs, moves[k]).Found? && C.Lookup(dev.view.fs, moves[k]).block == moves[k].source
    requires !Seen(log.entries, OwnerSwitched, moves[k].transaction)
    modifies dev, log
    ensures fresh(again)
    ensures switched == C.Done && r == Ended(R.Complete) ==> (exists rho :: R.Finished(p, rho, again.view)) && !WellOrdered(log.entries)
  {
    hide WellOrdered, C.Lookup, Seen, Identified, JournalTrusted, C.Trusted, D.Guards, D.Shields, R.Finished, AllJournalled, RejectedFor, Safe, Undamaged, Planned, R.ComesRight, C.LogicallyApart;
    again := new D.FsDevice(dev.view);
    r := NotStaged;
    switched := C.SwitchOwner(dev, geo, moves[k], crc, sums[k], p, rho, k, sums);
    if switched != C.Done { return; }
    again := new D.FsDevice(dev.view);
    ghost var rho' := rho[moves[k].source := moves[k].destination];
    OpenedAgain(again, dev, p, geo, rho');
    assert Unrecorded(log.entries, again.view.used, rho'.Keys, moves[k]) by { SourceInUse(moves, k, again.view.used); }
    r := CommitStaged(again, log, geo, MetadataFinalize, moves, crc, true, leaveDirty, p, rho');
  }

  lemma SourceInUse(moves: seq<OwnerMove>, k: nat, used: set<nat>)
    requires Identified(moves) && k < |moves| && C.Full(used, moves[k].source, moves[k].count)
    ensures !C.Clear(used, moves[k].source, moves[k].count)
  {
    assert InRange(moves[k].source, moves[k].source, moves[k].count);
    assert moves[k].source in Range(moves[k].source, moves[k].count);
  }

  lemma OpenedAgain(again: D.FsDevice, dev: D.FsDevice, p: Plan, geo: D.Geometry, rho: E.Moves)
    requires C.Rest(dev, p, geo, rho) && again.durable == again.view == dev.view && again.trace == [(again.view, again.view)]
    ensures R.Resumable(again, p, geo, rho)
  {
    hide Safe, Undamaged, D.Guarded;
    D.RestGuarded(p, geo, rho, again.view);
  }

  lemma OrderedBefore(rs: seq<Record>, all: seq<Record>)
    requires WellOrdered(all) && rs <= all
    ensures WellOrdered(rs)
  {
    PrefixWellOrdered(all, |rs|);
    assert all[..|rs|] == rs;
  }

  /** The refusal is justified by the disk and the journalled checksums. */
  ghost predicate RejectedFor(rs: seq<Record>, p: Plan, geo: D.Geometry, d: D.Disk, rho: E.Moves, crc: seq<E.Block> -> nat, why: C.Refusal)
    requires D.GeometryOk(geo)
  {
    exists sums :: |sums| == |p.moves| && SumsFrom(rs, p.moves, sums) && R.Justified(p, geo, d, rho, crc, sums, why)
  }

  lemma ResumableGuards(dev: D.FsDevice, p: Plan, geo: D.Geometry, rho: E.Moves)
    requires R.Resumable(dev, p, geo, rho)
    ensures D.GeometryOk(geo) && D.Guards(p, geo, dev.trace) && D.Shields(p, dev.trace) && dev.view.super.Super?
  {
    D.GuardsShield(p, geo, dev.trace);
  }
}
