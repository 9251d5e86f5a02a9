/**
 assess_recovery of src/transaction/recovery.cpp, and why it may offer a rollback: over every run of
 the journalled commands, with crashes anywhere, an offer means nothing irreversible has happened.
 */
module Recovery {
  import opened Storage
  import opened Journal
  import V = Validate
  import H = History
  import S = StageRun
  import Z = Resize

  datatype Action = NoAction | ResumeOrRollback | ResumeForward | FinishForward | ManualReview

  datatype Assessment = Assessment(action: Action, safeToResume: bool, rollback: bool)

  datatype Status = Status(recordsValid: bool, headerA: bool, headerB: bool, phase: Phase)

  function Assess(s: Status): Assessment {
    if !s.recordsValid || (!s.headerA && !s.headerB) then Assessment(ManualReview, false, false)
    else
      match s.phase
      case Prepared => Assessment(ResumeOrRollback, true, true)
      case Relocating => Assessment(ResumeOrRollback, true, true)
      case Paused => Assessment(ResumeOrRollback, true, true)
      case Staged => Assessment(ResumeForward, true, true)
      case MetadataFinalize => Assessment(ResumeForward, true, false)
      case MetadataPaused => Assessment(ResumeForward, true, false)
      case Compacted => Assessment(ResumeForward, true, false)
      case FilesystemShrunk => Assessment(FinishForward, true, false)
      case PartitionPending => Assessment(FinishForward, true, false)
      case Complete => Assessment(NoAction, false, false)
      case Failed => Assessment(ManualReview, false, false)
  }

  /** The status of a journal found on disk; one that does not load has no valid records. */
  function StatusOf(img: JournalImage): Status {
    match Load(img)
    case Loaded(h, _) => Status(true, HasHeader(img, 0), HasHeader(img, 1), h.phase)
    case Corrupt => Status(false, HasHeader(img, 0), HasHeader(img, 1), Failed)
  }

  // ---------- the commands ----------

  datatype Command = Stage | Commit | Finalize | Sync

  /** The phase check each command makes on the journal it opens. */
  predicate Accepts(c: Command, phase: Phase) {
    match c
    case Stage => phase == Prepared || phase == Relocating || phase == Paused || phase == Staged
    case Commit => phase == Staged || phase == MetadataFinalize || phase == MetadataPaused || phase == Compacted
    case Finalize => phase == Compacted || phase == Staged
    case Sync => phase == FilesystemShrunk || phase == PartitionPending || phase == Complete
  }

  /**
   What a command may do next. A commit or a finalization is Opening until its metadata_finalize
   checkpoint has been acknowledged, and only then Changing owners, bitmaps and counters.
   */
  datatype Running = Idle | Staging | Opening(c: Command) | Changing(c: Command) | Syncing

  function Start(c: Command): Running {
    match c
    case Stage => Staging
    case Sync => Syncing
    case _ => Opening(c)
  }

  /** The phases each kind of activity may checkpoint. */
  predicate MayEnter(r: Running, phase: Phase) {
    match r
    case Idle => false
    case Staging => phase == Relocating || phase == Paused || phase == Staged
    case Opening(_) => phase == MetadataFinalize
    case Changing(c) => if c == Finalize then phase == FilesystemShrunk else phase == MetadataPaused || phase == Compacted
    case Syncing => phase == PartitionPending || phase == Complete
  }

  predicate MayDo(r: Running, op: Op) {
    match op
    case AppendOp(_) => r != Idle
    case CheckpointOp(phase) => MayEnter(r, phase)
  }

  function AfterOp(r: Running, op: Op): Running {
    match r
    case Opening(c) => if op.CheckpointOp? then Changing(c) else r
    case _ => r
  }

  /** The journal file, the owner pointers and allocation bits on disk, and what is running. */
  datatype World<M> = World(journal: JournalImage, metadata: M, running: Running)

  datatype Event<M> =
    | Begin(command: Command)
    | Done(op: Op)
    | Cut(op: Op, left: JournalImage)
    | Change(metadata: M)
    | Exit

  /**
   One step of a run. Cut is an operation that fails or is interrupted by a crash, leaving whatever
   its writes may leave; Exit is a command that ends, for any reason, between operations.
   */
  ghost predicate Step<M(!new)>(w: World<M>, e: Event<M>, v: World<M>, capacity: nat) {
    match e
    case Begin(c) =>
      w.running == Idle && Load(w.journal).Loaded? && Accepts(c, Load(w.journal).header.phase) && v == w.(running := Start(c))
    case Done(op) =>
      && MayDo(w.running, op) && Load(w.journal).Loaded? && Appendable(w.journal, Adds(w.journal, op), capacity)
      && v == w.(journal := Completed(w.journal, op), running := AfterOp(w.running, op))
    case Cut(op, left) =>
      MayDo(w.running, op) && Leaves(w.journal, op, capacity, left) && v == w.(journal := left, running := Idle)
    case Change(m) =>
      w.running.Changing? && v == w.(metadata := m)
    case Exit =>
      v == w.(running := Idle)
  }

  ghost predicate Run<M(!new)>(ws: seq<World<M>>, es: seq<Event<M>>, capacity: nat) {
    && |ws| == |es| + 1
    && forall i :: 0 <= i < |es| ==> Step(ws[i], es[i], ws[i + 1], capacity)
  }

  /** Phases from metadata_finalize on. */
  predicate Late(phase: Phase) {
    || phase == MetadataFinalize || phase == MetadataPaused || phase == Compacted
    || phase == FilesystemShrunk || phase == PartitionPending || phase == Complete
  }

  /** The journal durably says that metadata changes have begun. */
  ghost predicate Committed<M(!new)>(w: World<M>) {
    && Settled(w.journal) && Late(Load(w.journal).header.phase)
    && w.running != Staging
  }

  ghost predicate Invariant<M(!new)>(w: World<M>, initial: M, capacity: nat) {
    && Shaped(w.journal, capacity)
    && (Committed(w) || (w.metadata == initial && !w.running.Changing?))
  }

  function OpPhase(img: JournalImage, op: Op): Phase
    requires Load(img).Loaded?
  {
    match op
    case AppendOp(_) => Load(img).header.phase
    case CheckpointOp(phase) => phase
  }

  /** An interrupted operation leaves the old phase or the one it was writing. */
  lemma PhaseAfterCut(img: JournalImage, op: Op, capacity: nat, left: JournalImage)
    requires Shaped(img, capacity) && Settled(img) && Leaves(img, op, capacity, left)
    ensures Settled(left) && Load(left).header.phase in {Load(img).header.phase, OpPhase(img, op)}
  {
    hide AppendMedia, CheckpointMedia, RecordValid;
    if left != img {
      var i :| 0 <= i < |OpMedia(img, op)| && CrashImage(OpMedia(img, op)[i], left);
      match op
      case AppendOp(batch) => AppendAtomic(img, batch, capacity, i, left);
      case CheckpointOp(phase) => CheckpointAtomic(img, Adds(img, op)[0], phase, capacity, i, left);
    }
  }

  lemma ShapedAfterCut(img: JournalImage, op: Op, capacity: nat, left: JournalImage)
    requires Shaped(img, capacity) && Leaves(img, op, capacity, left)
    ensures Shaped(left, capacity)
  {
    hide AppendMedia, CheckpointMedia, RecordValid;
    if left != img {
      var i :| 0 <= i < |OpMedia(img, op)| && CrashImage(OpMedia(img, op)[i], left);
      match op
      case AppendOp(batch) => AppendAtomic(img, batch, capacity, i, left);
      case CheckpointOp(phase) => CheckpointAtomic(img, Adds(img, op)[0], phase, capacity, i, left);
    }
  }

  lemma PhaseAfterDone(img: JournalImage, op: Op, capacity: nat)
    requires Load(img).Loaded? && Appendable(img, Adds(img, op), capacity)
    ensures var done := Completed(img, op);
      Shaped(done, capacity) && Settled(done) && Load(done).header.phase == OpPhase(img, op)
  {
    hide AppendMedia, CheckpointMedia, RecordValid;
    match op
    case AppendOp(batch) => AppendCompletes(img, batch, capacity);
    case CheckpointOp(phase) => CheckpointCompletes(img, Adds(img, op)[0], phase, capacity);
  }

  /** Outside staging, checkpoints only enter late phases. */
  lemma EntersLate(r: Running, img: JournalImage, op: Op)
    requires Load(img).Loaded? && MayDo(r, op) && r != Staging && Late(Load(img).header.phase)
    ensures Late(OpPhase(img, op))
  {
  }

  lemma InvariantStep<M(!new)>(w: World<M>, e: Event<M>, v: World<M>, initial: M, capacity: nat)
    requires Invariant(w, initial, capacity) && Step(w, e, v, capacity)
    ensures Invariant(v, initial, capacity)
    ensures Committed(w) ==> Committed(v)
  {
    hide Load, Leaves, Completed, Adds, Appendable, Shaped, Settled;
    match e
    case Begin(c) =>
    case Done(op) =>
      PhaseAfterDone(w.journal, op, capacity);
      if Committed(w) { EntersLate(w.running, w.journal, op); }
    case Cut(op, left) =>
      ShapedAfterCut(w.journal, op, capacity, left);
      if Committed(w) {
        SettledLoads(w.journal);
        PhaseAfterCut(w.journal, op, capacity, left);
        EntersLate(w.running, w.journal, op);
      }
    case Change(_) =>
    case Exit =>
  }

  lemma SettledLoads(img: JournalImage)
    requires Settled(img)
    ensures Load(img).Loaded?
  {
    hide Load;
  }

  lemma {:induction false} RunInvariant<M(!new)>(ws: seq<World<M>>, es: seq<Event<M>>, capacity: nat, initial: M, i: nat, j: nat)
    requires Run(ws, es, capacity) && i <= j < |ws|
    requires Shaped(ws[0].journal, capacity) && ws[0].metadata == initial && ws[0].running == Idle
    ensures Invariant(ws[i], initial, capacity) && Invariant(ws[j], initial, capacity)
    ensures Committed(ws[i]) ==> Committed(ws[j])
    decreases j
  {
    hide Step, Shaped, Committed;
    if j > 0 {
      RunInvariant(ws, es, capacity, initial, if i < j then i else j - 1, j - 1);
      InvariantStep(ws[j - 1], es[j - 1], ws[j], initial, capacity);
    }
  }

  /**
   Over every run with crashes, from a journal just created or in any other state, whenever recovery
   offers a rollback no owner pointer and no allocation bit differs from its initial value. Once
   metadata_finalize was durable before a change, no later state offers it again.
   */
  lemma RollbackIsSafe<M(!new)>(ws: seq<World<M>>, es: seq<Event<M>>, capacity: nat, i: nat, j: nat)
    requires Run(ws, es, capacity) && i <= j < |ws|
    requires Shaped(ws[0].journal, capacity) && ws[0].running == Idle
    ensures Assess(StatusOf(ws[j].journal)).rollback ==> ws[j].metadata == ws[0].metadata
    ensures ws[i].running.Changing? || ws[i].metadata != ws[0].metadata ==>
      Load(ws[j].journal).Loaded? && !Assess(StatusOf(ws[j].journal)).rollback
  {
    hide Step, Shaped, Load;
    RunInvariant(ws, es, capacity, ws[0].metadata, i, j);
  }

  /** The answer agrees with what the commands accept: rollback while staging may still run, resume while any command may. */
  lemma AssessMatchesCommands(s: Status)
    requires s.recordsValid && (s.headerA || s.headerB)
    ensures Assess(s).rollback <==> Accepts(Stage, s.phase)
    ensures Assess(s).safeToResume <==> s.phase != Complete && exists c :: Accepts(c, s.phase)
    ensures Assess(s).action == ResumeForward <==> Accepts(Commit, s.phase)
    ensures Assess(s).action == FinishForward || Assess(s).action == NoAction <==> Accepts(Sync, s.phase)
    ensures Assess(s).action == ManualReview <==> s.phase == Failed
  {
    var f := s.phase;
    assert Assess(s).safeToResume ==> Accepts(Stage, f) || Accepts(Commit, f) || Accepts(Sync, f);
  }

  /** A journal that does not load, or has no valid header, needs a person, and nothing is offered. */
  lemma UnreadableNeedsReview(s: Status)
    requires !s.recordsValid || (!s.headerA && !s.headerB)
    ensures Assess(s).action == ManualReview && !Assess(s).safeToResume && !Assess(s).rollback
  {
  }

  /** The phase checks of the machine are those the commands make. */
  lemma CommandsAgree(phase: Phase)
    ensures Accepts(Stage, phase) <==> S.StagePhase(phase)
    ensures Accepts(Commit, phase) <==> H.CommitPhase(phase) || phase == Compacted
    ensures Accepts(Finalize, phase) <==> Z.ShrinkPhase(phase)
  {
  }

  /** After a commit that completed or was paused, whose phase the header repeats, no rollback is offered. */
  lemma NoRollbackAfterCommit(rs: seq<Record>, s: Status)
    requires PhaseCode(s.phase) == V.LastPhase(rs)
    requires V.LastPhase(rs) == PhaseCode(Compacted) || V.LastPhase(rs) == PhaseCode(MetadataPaused) || V.LastPhase(rs) == PhaseCode(MetadataFinalize)
    ensures !Assess(s).rollback
    ensures s.recordsValid && (s.headerA || s.headerB) ==> Assess(s).action == ResumeForward
  {
    hide V.LastPhase;
  }
}
