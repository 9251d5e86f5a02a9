/**
 validate_journal_semantics of src/transaction/validate.cpp: one pass over the records that checks
 the order of each transaction's steps.
 */
module Validate {
  import opened Options
  import opened Journal

  // ---------- the declarative order ----------

  predicate Geometry(a: Record, b: Record) {
    a.source == b.source && a.destination == b.destination && a.blocks == b.blocks && a.inode == b.inode
  }

  /** Record kinds that belong to no relocation transaction. */
  predicate Standalone(k: RecordType) {
    k.Checkpoint? || k.MarkedDirty? || k.MarkedClean? || k.PartitionIntent? || k.PartitionCommitted? || k.Note?
  }

  predicate Seen(rs: seq<Record>, kind: RecordType, transaction: nat) {
    exists j :: 0 <= j < |rs| && rs[j].kind == kind && rs[j].transaction == transaction
  }

  /** The first intent of a transaction. */
  function IntentOf(rs: seq<Record>, transaction: nat): (r: Option<Record>)
    ensures r.Some? ==> r.value in rs && r.value.kind == RelocationIntent && r.value.transaction == transaction
    ensures r.None? ==> !Seen(rs, RelocationIntent, transaction)
  {
    if rs == [] then None
    else
      var n := |rs| - 1;
      var earlier := IntentOf(rs[..n], transaction);
      if earlier.Some? then earlier
      else if rs[n].kind == RelocationIntent && rs[n].transaction == transaction then Some(rs[n])
      else None
  }

  /** `r` may follow the records `rs`. */
  predicate InOrder(rs: seq<Record>, r: Record) {
    if r.kind == Checkpoint then PhaseCode(Prepared) <= r.aux <= PhaseCode(Compacted)
    else if Standalone(r.kind) then true
    else
      var intent := IntentOf(rs, r.transaction);
      && r.transaction != 0
      && (r.kind == RelocationIntent && intent.None? ==> r.blocks != 0 && r.source != r.destination)
      && (r.kind != RelocationIntent ==> intent.Some?)
      && (intent.Some? ==> Geometry(intent.value, r))
      && (r.kind == OwnerSwitched || r.kind == MetadataCommitted ==> Seen(rs, CopyVerified, r.transaction))
      && (r.kind == SourceReleased ==> Seen(rs, OwnerSwitched, r.transaction))
  }

  /** Records of no transaction other than checkpoints may come anywhere; checkpoints, if their phase exists. */
  lemma StandaloneInOrder(rs: seq<Record>, r: Record)
    ensures r.kind in {MarkedDirty, MarkedClean, PartitionIntent, PartitionCommitted, Note} ==> InOrder(rs, r)
    ensures r.kind == Checkpoint ==> (InOrder(rs, r) <==> 1 <= r.aux <= 11)
  {
  }

  /** Record `j` is the first intent of the transaction. */
  predicate FirstIntent(rs: seq<Record>, transaction: nat, j: nat) {
    && j < |rs| && rs[j].kind == RelocationIntent && rs[j].transaction == transaction
    && forall k :: 0 <= k < j ==> rs[k].kind != RelocationIntent || rs[k].transaction != transaction
  }

  lemma {:induction false} NoIntentYet(rs: seq<Record>, transaction: nat)
    requires forall k :: 0 <= k < |rs| ==> rs[k].kind != RelocationIntent || rs[k].transaction != transaction
    ensures IntentOf(rs, transaction).None?
    decreases |rs|
  {
    if rs != [] { NoIntentYet(rs[..|rs| - 1], transaction); }
  }

  lemma {:induction false} FirstIntentIs(rs: seq<Record>, transaction: nat, j: nat)
    requires FirstIntent(rs, transaction, j)
    ensures IntentOf(rs, transaction) == Some(rs[j])
    decreases |rs|
  {
    var n := |rs| - 1;
    if j < n {
      FirstIntentIs(rs[..n], transaction, j);
    } else {
      NoIntentYet(rs[..n], transaction);
    }
  }

  /** A transaction begins with an intent of some length to another place. */
  lemma FirstInOrder(rs: seq<Record>, r: Record)
    requires !Standalone(r.kind) && forall k :: 0 <= k < |rs| ==> rs[k].kind != RelocationIntent || rs[k].transaction != r.transaction
    ensures InOrder(rs, r) <==> r.kind == RelocationIntent && r.transaction > 0 && r.blocks > 0 && r.source != r.destination
  {
    NoIntentYet(rs, r.transaction);
    hide IntentOf, Seen;
  }

  /** After that its records keep the geometry, switch or commit only a verified copy, and release only a switched owner. */
  lemma LaterInOrder(rs: seq<Record>, r: Record, j: nat)
    requires !Standalone(r.kind) && FirstIntent(rs, r.transaction, j)
    ensures InOrder(rs, r) <==>
      && r.transaction > 0
      && r.source == rs[j].source && r.destination == rs[j].destination && r.blocks == rs[j].blocks && r.inode == rs[j].inode
      && (r.kind in {OwnerSwitched, MetadataCommitted} ==> Seen(rs, CopyVerified, r.transaction))
      && (r.kind == SourceReleased ==> Seen(rs, OwnerSwitched, r.transaction))
  {
    FirstIntentIs(rs, r.transaction, j);
    hide IntentOf, Seen;
  }

  /** Every record may follow the ones before it. */
  predicate WellOrdered(rs: seq<Record>) {
    rs == [] || (WellOrdered(rs[..|rs| - 1]) && InOrder(rs[..|rs| - 1], rs[|rs| - 1]))
  }

  /** The filesystem state the records end with. */
  predicate EndsDirty(rs: seq<Record>) {
    rs != [] &&
    match rs[|rs| - 1].kind
    case MarkedDirty => true
    case MarkedClean => false
    case _ => EndsDirty(rs[..|rs| - 1])
  }

  /** The last recorded filesystem state is clean. */
  predicate EndsClean(rs: seq<Record>) {
    rs != [] &&
    match rs[|rs| - 1].kind
    case MarkedDirty => false
    case MarkedClean => true
    case _ => EndsClean(rs[..|rs| - 1])
  }

  /** The phase of the last checkpoint with a valid one, or 0. */
  function LastPhase(rs: seq<Record>): nat {
    if rs == [] then 0
    else
      var last := rs[|rs| - 1];
      if last.kind == Checkpoint && PhaseCode(Prepared) <= last.aux <= PhaseCode(Compacted) then last.aux
      else LastPhase(rs[..|rs| - 1])
  }

  function Count(b: bool): nat { if b then 1 else 0 }

  /** Warnings for a record that may follow `rs`, with the filesystem recorded `dirty` or not. */
  function Unusual(rs: seq<Record>, dirty: bool, r: Record): nat {
    match r.kind
    case MarkedClean => Count(!dirty)
    case RelocationIntent => Count(IntentOf(rs, r.transaction).Some?)
    case CopyVerified => Count(Seen(rs, CopyVerified, r.transaction))
    case DestinationReserved => Count(!Seen(rs, CopyVerified, r.transaction))
    case MetadataCommitted => Count(!Seen(rs, OwnerSwitched, r.transaction)) + Count(!Seen(rs, SourceReleased, r.transaction))
    case _ => 0
  }

  function Warnings(rs: seq<Record>): nat {
    if rs == [] then 0
    else
      var init := rs[..|rs| - 1];
      Warnings(init) + Unusual(init, EndsDirty(init), rs[|rs| - 1])
  }

  /** Warnings about the end of the records in a journal whose header says `phase`. */
  function ClosingWarnings(rs: seq<Record>, phase: Phase): nat {
    Count(LastPhase(rs) != 0 && LastPhase(rs) != PhaseCode(phase))
    + Count((phase == Complete || phase == FilesystemShrunk) && !EndsClean(rs))
  }

  // ---------- the pass ----------

  datatype TxState = TxState(
    intent: bool, verified: bool, reserved: bool, switched: bool, released: bool, committed: bool,
    source: nat, destination: nat, blocks: nat, inode: nat)

  const FRESH := TxState(false, false, false, false, false, false, 0, 0, 0, 0)

  predicate SameGeometry(s: TxState, r: Record) {
    s.source == r.source && s.destination == r.destination && s.blocks == r.blocks && s.inode == r.inode
  }

  function Lookup(tx: map<nat, TxState>, id: nat): TxState {
    if id in tx then tx[id] else FRESH
  }

  /** The map describes the records: which steps each transaction has taken, with its first intent's geometry. */
  ghost predicate Describes(tx: map<nat, TxState>, rs: seq<Record>) {
    0 !in tx && forall id :: Tracks(Lookup(tx, id), rs, id)
  }

  ghost predicate Tracks(s: TxState, rs: seq<Record>, id: nat) {
    && (s.intent <==> IntentOf(rs, id).Some?)
    && (s.intent ==> SameGeometry(s, IntentOf(rs, id).value))
    && (id != 0 ==> (s.verified <==> Seen(rs, CopyVerified, id)))
    && (id != 0 ==> (s.switched <==> Seen(rs, OwnerSwitched, id)))
    && (id != 0 ==> (s.released <==> Seen(rs, SourceReleased, id)))
    && (id != 0 ==> (s.committed <==> Seen(rs, MetadataCommitted, id)))
  }

  predicate Premature(s: TxState, kind: RecordType) {
    || ((kind == OwnerSwitched || kind == MetadataCommitted) && !s.verified)
    || (kind == SourceReleased && !s.switched)
  }

  /** Warnings of the switch over a transaction's later records. */
  function Redundant(s: TxState, kind: RecordType): nat {
    match kind
    case CopyVerified => Count(s.verified)
    case DestinationReserved => Count(!s.verified)
    case MetadataCommitted => Count(!s.switched) + Count(!s.released)
    case _ => 0
  }

  /** The state a transaction is in admits the record. */
  predicate Admits(s: TxState, r: Record) {
    if r.kind == RelocationIntent then if s.intent then SameGeometry(s, r) else r.blocks != 0 && r.source != r.destination
    else s.intent && SameGeometry(s, r) && !Premature(s, r.kind)
  }

  lemma AdmitsInOrder(s: TxState, rs: seq<Record>, r: Record)
    requires Tracks(s, rs, r.transaction) && !Standalone(r.kind) && r.transaction != 0
    ensures InOrder(rs, r) <==> Admits(s, r)
  {
    hide Seen, IntentOf;
  }

  lemma RedundantIsUnusual(s: TxState, rs: seq<Record>, dirty: bool, r: Record)
    requires Tracks(s, rs, r.transaction) && !Standalone(r.kind) && r.transaction != 0
    ensures Unusual(rs, dirty, r) == if r.kind == RelocationIntent then Count(s.intent) else Redundant(s, r.kind)
  {
    hide Seen, IntentOf;
  }

  class Validator {
    var tx: map<nat, TxState>
    var errors: nat
    var warnings: nat
    var dirty: bool
    var cleanSeen: bool
    var lastPhase: nat

    constructor ()
      ensures tx == map[] && errors == 0 && !dirty && warnings == 0 && !cleanSeen && lastPhase == 0
    {
      tx, errors, warnings, dirty, cleanSeen, lastPhase := map[], 0, 0, false, false, 0;
    }

    /** One record of the pass. */
    method Take(r: Record, ghost rs: seq<Record>)
      requires errors == 0 ==> Describes(tx, rs)
      modifies this
      ensures errors >= old(errors)
      ensures old(errors) == 0 ==> (errors == 0 <==> InOrder(rs, r))
      ensures errors == 0 ==> Describes(tx, rs + [r])
      ensures dirty == if r.kind == MarkedDirty then true else if r.kind == MarkedClean then false else old(dirty)
      ensures cleanSeen == if r.kind == MarkedDirty then false else if r.kind == MarkedClean then true else old(cleanSeen)
      ensures lastPhase == if r.kind == Checkpoint && PhaseCode(Prepared) <= r.aux <= PhaseCode(Compacted) then r.aux else old(lastPhase)
      ensures errors == 0 ==> warnings == old(warnings) + Unusual(rs, old(dirty), r)
    {
      if r.kind == Checkpoint {
        if r.aux < PhaseCode(Prepared) || r.aux > PhaseCode(Compacted) { errors := errors + 1; } else { lastPhase := r.aux; }
      } else if r.kind == MarkedDirty {
        dirty, cleanSeen := true, false;
      } else if r.kind == MarkedClean {
        if !dirty { warnings := warnings + 1; }
        dirty, cleanSeen := false, true;
      } else if r.kind == PartitionIntent || r.kind == PartitionCommitted || r.kind == Note {
      } else if r.transaction == 0 {
        errors := errors + 1;
      } else {
        TakeStep(r, rs);
        return;
      }
      if errors == 0 && Standalone(r.kind) { StandaloneKeeps(tx, rs, r); }
    }

    /** The switch over a transaction's later records. */
    method Advance(s: TxState, kind: RecordType) returns (t: TxState)
      modifies this`errors, this`warnings
      ensures t == s.(verified := s.verified || kind == CopyVerified, reserved := s.reserved || kind == DestinationReserved,
        switched := s.switched || kind == OwnerSwitched, released := s.released || kind == SourceReleased,
        committed := s.committed || kind == MetadataCommitted)
      ensures errors == old(errors) + if Premature(s, kind) then 1 else 0
      ensures warnings == old(warnings) + Redundant(s, kind)
    {
      t := s;
      match kind {
        case CopyVerified =>
          if s.verified { warnings := warnings + 1; }
          t := t.(verified := true);
        case DestinationReserved =>
          if !s.verified { warnings := warnings + 1; }
          t := t.(reserved := true);
        case OwnerSwitched =>
          if !s.verified { errors := errors + 1; }
          t := t.(switched := true);
        case SourceReleased =>
          if !s.switched { errors := errors + 1; }
          t := t.(released := true);
        case MetadataCommitted =>
          if !s.verified { errors := errors + 1; }
          if !s.switched { warnings := warnings + 1; }
          if !s.released { warnings := warnings + 1; }
          t := t.(committed := true);
        case _ =>
      }
    }

    method TakeIntent(s: TxState, r: Record) returns (t: TxState)
      requires r.kind == RelocationIntent
      modifies this`errors, this`warnings
      ensures errors == old(errors) + Count(!Admits(s, r))
      ensures Admits(s, r) ==> warnings == old(warnings) + Count(s.intent)
      ensures t == if s.intent then s
        else s.(intent := true, source := r.source, destination := r.destination, blocks := r.blocks, inode := r.inode)
    {
      t := s;
      if s.intent {
        if !SameGeometry(s, r) { errors := errors + 1; } else { warnings := warnings + 1; }
      } else {
        t := s.(intent := true, source := r.source, destination := r.destination, blocks := r.blocks, inode := r.inode);
        if t.blocks == 0 || t.source == t.destination { errors := errors + 1; }
      }
    }

    method TakeStep(r: Record, ghost rs: seq<Record>)
      requires errors == 0 ==> Describes(tx, rs)
      requires !Standalone(r.kind) && r.transaction != 0
      modifies this`tx, this`errors, this`warnings
      ensures errors >= old(errors)
      ensures old(errors) == 0 ==> (errors == 0 <==> InOrder(rs, r))
      ensures errors == 0 ==> Describes(tx, rs + [r])
      ensures errors == 0 ==> warnings == old(warnings) + Unusual(rs, dirty, r)
    {
      hide InOrder, Tracks, Describes, Redundant, Unusual;
      var id := r.transaction;
      var s := Lookup(tx, id);
      if errors == 0 {
        DescribesEach(tx, rs, id);
        AdmitsInOrder(s, rs, r);
        RedundantIsUnusual(s, rs, dirty, r);
      }
      ghost var before := tx;
      tx := tx[id := s];
      if r.kind == RelocationIntent {
        s := TakeIntent(s, r);
        tx := tx[id := s];
      } else if !s.intent || !SameGeometry(s, r) {
        errors := errors + 1;
      } else {
        s := Advance(s, r.kind);
        tx := tx[id := s];
      }
      if errors == 0 {
        StepDescribes(before, tx, rs, r, s);
      }
    }
  }

  lemma DescribesEach(tx: map<nat, TxState>, rs: seq<Record>, id: nat)
    requires Describes(tx, rs)
    ensures Tracks(Lookup(tx, id), rs, id)
  {
  }

  lemma SeenAppend(rs: seq<Record>, r: Record, kind: RecordType, id: nat)
    ensures Seen(rs + [r], kind, id) <==> Seen(rs, kind, id) || (r.kind == kind && r.transaction == id)
  {
    var all := rs + [r];
    if Seen(rs, kind, id) {
      var j :| 0 <= j < |rs| && rs[j].kind == kind && rs[j].transaction == id;
      assert all[j] == rs[j];
    }
    if r.kind == kind && r.transaction == id { assert all[|rs|] == r; }
  }

  lemma IntentAppend(rs: seq<Record>, r: Record, id: nat)
    ensures IntentOf(rs + [r], id) ==
      if IntentOf(rs, id).Some? then IntentOf(rs, id)
      else if r.kind == RelocationIntent && r.transaction == id then Some(r) else None
  {
    assert (rs + [r])[..|rs|] == rs;
  }

  lemma TracksOther(s: TxState, rs: seq<Record>, r: Record, id: nat)
    requires Tracks(s, rs, id) && (Standalone(r.kind) || r.transaction != id)
    ensures Tracks(s, rs + [r], id)
  {
    hide Seen, IntentOf;
    IntentAppend(rs, r, id);
    SeenAppend(rs, r, CopyVerified, id);
    SeenAppend(rs, r, OwnerSwitched, id);
    SeenAppend(rs, r, SourceReleased, id);
    SeenAppend(rs, r, MetadataCommitted, id);
  }

  lemma StandaloneKeeps(tx: map<nat, TxState>, rs: seq<Record>, r: Record)
    requires Describes(tx, rs) && Standalone(r.kind)
    ensures Describes(tx, rs + [r])
  {
    hide Tracks;
    forall id ensures Tracks(Lookup(tx, id), rs + [r], id) {
      TracksOther(Lookup(tx, id), rs, r, id);
    }
  }

  /** The transaction's state after an accepted record. */
  lemma StepDescribes(before: map<nat, TxState>, tx: map<nat, TxState>, rs: seq<Record>, r: Record, s: TxState)
    requires Describes(before, rs) && !Standalone(r.kind) && r.transaction != 0
    requires tx == before[r.transaction := s]
    requires var o := Lookup(before, r.transaction);
      && s.intent && SameGeometry(s, r) && (o.intent ==> SameGeometry(o, r))
      && (o.intent || r.kind == RelocationIntent)
      && s.verified == (o.verified || r.kind == CopyVerified)
      && s.switched == (o.switched || r.kind == OwnerSwitched)
      && s.released == (o.released || r.kind == SourceReleased)
      && s.committed == (o.committed || r.kind == MetadataCommitted)
    ensures Describes(tx, rs + [r])
  {
    hide Seen, IntentOf;
    var id := r.transaction;
    assert Tracks(Lookup(before, id), rs, id);
    IntentAppend(rs, r, id);
    SeenAppend(rs, r, CopyVerified, id);
    SeenAppend(rs, r, OwnerSwitched, id);
    SeenAppend(rs, r, SourceReleased, id);
    SeenAppend(rs, r, MetadataCommitted, id);
    forall other ensures Tracks(Lookup(tx, other), rs + [r], other) {
      if other != id {
        assert Tracks(Lookup(before, other), rs, other);
        TracksOther(Lookup(before, other), rs, r, other);
      }
    }
  }

  /** The closing checks over all transactions add nothing to a pass without errors. */
  lemma ClosingChecksHold(tx: map<nat, TxState>, rs: seq<Record>, id: nat)
    requires WellOrdered(rs) && Describes(tx, rs) && id in tx
    ensures tx[id].committed ==> tx[id].verified
    ensures tx[id].released ==> tx[id].switched
  {
    assert Tracks(Lookup(tx, id), rs, id);
    SeenMeans(rs, id);
  }

  predicate Chained(rs: seq<Record>, id: nat) {
    && (Seen(rs, MetadataCommitted, id) ==> Seen(rs, CopyVerified, id))
    && (Seen(rs, SourceReleased, id) ==> Seen(rs, OwnerSwitched, id))
    && (Seen(rs, OwnerSwitched, id) ==> Seen(rs, CopyVerified, id))
  }

  lemma {:induction false} SeenMeans(rs: seq<Record>, id: nat)
    requires WellOrdered(rs) && id != 0
    ensures Chained(rs, id)
    decreases |rs|
  {
    hide Seen, IntentOf, InOrder;
    if rs == [] {
      NothingSeen(MetadataCommitted, id);
      NothingSeen(SourceReleased, id);
      NothingSeen(OwnerSwitched, id);
      assert rs == [];
    } else {
      var init, last := rs[..|rs| - 1], rs[|rs| - 1];
      SeenMeans(init, id);
      ChainedStep(init, last, id);
      assert rs == init + [last];
    }
  }

  lemma ChainedStep(rs: seq<Record>, r: Record, id: nat)
    requires Chained(rs, id) && InOrder(rs, r) && id != 0
    ensures Chained(rs + [r], id)
  {
    hide Seen, IntentOf;
    SeenAppend(rs, r, MetadataCommitted, id);
    SeenAppend(rs, r, SourceReleased, id);
    SeenAppend(rs, r, OwnerSwitched, id);
    SeenAppend(rs, r, CopyVerified, id);
  }

  lemma NothingSeen(kind: RecordType, id: nat)
    ensures !Seen([], kind, id)
  {
  }

  /** validate_journal_semantics: no errors exactly for well-ordered records that do not complete dirty. */
  method ValidateJournal(rs: seq<Record>, phase: Phase) returns (clean: bool, warnings: nat)
    ensures clean <==> WellOrdered(rs) && !(phase == Complete && EndsDirty(rs))
    ensures clean ==> warnings == Warnings(rs) + ClosingWarnings(rs, phase)
  {
    hide Describes, WellOrdered, InOrder, Tracks, Unusual, EndsDirty, EndsClean, LastPhase, Warnings;
    var v := new Validator();
    assert rs[..0] == [];
    Beginning();
    for i := 0 to |rs|
      invariant v.errors == 0 <==> WellOrdered(rs[..i])
      invariant v.errors == 0 ==> Describes(v.tx, rs[..i])
      invariant v.dirty == EndsDirty(rs[..i]) && v.cleanSeen == EndsClean(rs[..i]) && v.lastPhase == LastPhase(rs[..i])
      invariant v.errors == 0 ==> v.warnings == Warnings(rs[..i])
    {
      assert rs[..i + 1] == rs[..i] + [rs[i]];
      Extended(rs[..i], rs[i]);
      v.Take(rs[i], rs[..i]);
    }
    assert rs[..|rs|] == rs;
    var tx, errors, dirty := v.tx, v.errors, v.dirty;
    var cleanSeen, lastPhase := v.cleanSeen, v.lastPhase;
    warnings := v.warnings;
    var todo := tx.Keys;
    var late := 0;
    while todo != {}
      invariant todo <= tx.Keys
      invariant errors == 0 ==> late == 0
      decreases |todo|
    {
      var id :| id in todo;
      todo := todo - {id};
      var s := Lookup(tx, id);
      if s.intent && ((s.committed && !s.verified) || (s.released && !s.switched)) {
        if errors == 0 { ClosingChecksHold(tx, rs, id); }
        late := late + 1;
      }
    }
    errors := errors + late;
    if lastPhase != 0 && lastPhase != PhaseCode(phase) { warnings := warnings + 1; }
    if phase == Complete && dirty { errors := errors + 1; }
    if (phase == Complete || phase == FilesystemShrunk) && !cleanSeen { warnings := warnings + 1; }
    clean := errors == 0;
  }

  lemma Beginning()
    ensures Describes(map[], []) && WellOrdered([]) && !EndsDirty([]) && !EndsClean([]) && LastPhase([]) == 0 && Warnings([]) == 0
  {
  }

  lemma Extended(rs: seq<Record>, r: Record)
    ensures WellOrdered(rs + [r]) <==> WellOrdered(rs) && InOrder(rs, r)
    ensures EndsDirty(rs + [r]) == if r.kind == MarkedDirty then true else if r.kind == MarkedClean then false else EndsDirty(rs)
    ensures EndsClean(rs + [r]) == if r.kind == MarkedDirty then false else if r.kind == MarkedClean then true else EndsClean(rs)
    ensures LastPhase(rs + [r])
      == if r.kind == Checkpoint && PhaseCode(Prepared) <= r.aux <= PhaseCode(Compacted) then r.aux else LastPhase(rs)
    ensures Warnings(rs + [r]) == Warnings(rs) + Unusual(rs, EndsDirty(rs), r)
  {
    hide InOrder, Unusual;
    assert (rs + [r])[..|rs|] == rs;
  }
}
