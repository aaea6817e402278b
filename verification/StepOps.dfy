/** Step commits, snapshots, definitive run failures and migrations: the writes
    that move the cursor of an execution. */
module StepOps {
  import opened Basics
  import opened Envelopes
  import opened AggregateInvariant
  import A = ActivityRecords
  import C = ChildRecords
  import S = ActivitySteps
  import G = ChildGroups
  import L = ChildCapacity
  import W = WaitArbitration

  /** What a checkpoint persists besides the collections. */
  datatype Snapshot = Snapshot(pointer: string, state: Bytes, effects: Bytes, runMeta: RunMeta)

  /** How a step ended: in a wait that is already armed, at the next node, with
      a result, or without anything to persist. */
  datatype StepEnd = Waits | Goes | Ends(status: RunStatus, reason: string, error: Option<string>) | EndsUnsaved

  // ---------------------------------------------------- nothing outstanding

  predicate ActivityResolved(e: Envelope, r: A.ActivityRecord) {
    r.activation == e.activation ==> r.state.Completed? || (r.state.Failed? && !r.classification.Ambiguous?)
  }

  predicate GroupResolved(e: Envelope, g: C.ChildGroup) {
    g.activation == e.activation ==> C.Merged(g)
  }

  predicate Resolved(e: Envelope) {
    && !HasArmed(e)
    && (forall k :: k in e.children ==> GroupResolved(e, e.children[k]))
    && (forall k :: k in e.journal ==> ActivityResolved(e, e.journal[k]))
  }

  function ActivityError(r: A.ActivityRecord): Error {
    match r.state
    case Running => ErrActivityBusy
    case Prepared => if r.attempts != [] then S.RecordError(r) else ErrActivityConflict
    case _ => ErrActivityUnknown
  }

  /** The three scans of the source. With several unresolved activities of the
      activation the map order decides which one is reported. */
  method ResolvedActivities(e: Envelope) returns (err: Option<Error>)
    ensures err.None? <==> Resolved(e)
    ensures HasArmed(e) ==> err == Some(ErrWaitUnresolved)
    ensures !HasArmed(e) && (exists k :: k in e.children && !GroupResolved(e, e.children[k])) ==>
      err == Some(ErrChildrenUnresolved)
    ensures err.Some? && !HasArmed(e) && (forall k :: k in e.children ==> GroupResolved(e, e.children[k])) ==>
      exists k :: k in e.journal && !ActivityResolved(e, e.journal[k]) && err == Some(ActivityError(e.journal[k]))
  {
    var waits := e.waits.Keys;
    while waits != {}
      invariant waits <= e.waits.Keys && forall k :: k in e.waits && k !in waits ==> !e.waits[k].state.Armed?
      decreases waits
    {
      var k :| k in waits;
      if e.waits[k].state.Armed? {
        return Some(ErrWaitUnresolved);
      }
      waits := waits - {k};
    }
    var groups := e.children.Keys;
    while groups != {}
      invariant groups <= e.children.Keys
      invariant forall k :: k in e.children && k !in groups ==> GroupResolved(e, e.children[k])
      decreases groups
    {
      var k :| k in groups;
      if e.children[k].activation == e.activation && |e.children[k].mergedIDs| != |e.children[k].children| {
        return Some(ErrChildrenUnresolved);
      }
      groups := groups - {k};
    }
    var journal := e.journal.Keys;
    while journal != {}
      invariant journal <= e.journal.Keys
      invariant forall k :: k in e.journal && k !in journal ==> ActivityResolved(e, e.journal[k])
      decreases journal
    {
      var k :| k in journal;
      var r := e.journal[k];
      if r.activation == e.activation {
        match r.state {
          case Running => return Some(ErrActivityBusy);
          case Unknown => return Some(ErrActivityUnknown);
          case Prepared => return Some(if r.attempts != [] then S.RecordError(r) else ErrActivityConflict);
          case Failed =>
            if r.classification.Ambiguous? {
              return Some(ErrActivityUnknown);
            }
          case Completed =>
        }
      }
      journal := journal - {k};
    }
    return None;
  }

  /** The gate looks at the current activation only; under the invariant that is
      everything. */
  lemma ResolvedIsIdle(e: Envelope)
    requires EnvInv(e)
    ensures Resolved(e) <==> !HasArmed(e) && Idle(e)
  {
    hide A.ValidAttempts, A.ValidDecisions, A.ValidSchedules, A.ValidHistory, A.ValidAddress;
    hide G.GroupInv, L.LedgerHolds, OutcomesDistinct, WaitsValid, JournalRefsValid, GroupRefsValid;
    forall k | k in e.journal ensures ActivityResolved(e, e.journal[k]) <==> !A.Unresolved(e.journal[k].state) {
      assert RecordAt(e, e.journal[k]) && A.ValidState(e.journal[k]);
    }
    forall k | k in e.children ensures GroupResolved(e, e.children[k]) <==> C.Merged(e.children[k]) {
      assert GroupAt(e, e.children[k]);
    }
  }

  // -------------------------------------------------------------- operations

  function WithSnapshot(e: Envelope, s: Snapshot): Envelope {
    e.(progress := e.progress.(pointer := s.pointer, state := s.state), effects := s.effects, runMeta := s.runMeta)
  }

  function Save(e: Envelope, s: Snapshot): Step {
    if !Resolved(e) then Outstanding else Write(WithSnapshot(e, s))
  }

  function MakeTerminal(status: RunStatus, reason: string, error: Option<string>): Terminal {
    Terminal(status, reason,
      if !status.RunFailed? then None else Some(if error.Some? then error.value else reason))
  }

  /** A retry of the same node stays in its activation; everything else starts
      the next one and drops the references of this one. */
  function Advance(e: Envelope, retry: bool, pointer: string): Envelope {
    if retry && pointer == e.progress.pointer then e
    else e.(activation := Increment(e.activation),
            progress := e.progress.(journalRefs := map[], groupRefs := map[]))
  }

  function CommitStep(e: Envelope, retry: bool, end: StepEnd, s: Snapshot): Step {
    if end.Waits? then Unchanged
    else if !Resolved(e) then Outstanding
    else match end
      case EndsUnsaved => Unchanged
      case Ends(status, reason, error) =>
        if !status.RunCompleted? && !status.RunFailed? then Unchanged
        else Write(WithSnapshot(
          Advance(e, retry, s.pointer).(terminal := Some(MakeTerminal(status, reason, error))), s))
      case _ => Write(WithSnapshot(Advance(e, retry, s.pointer), s))
  }

  /** Definitive node failures become terminal; recoverable ones never do. */
  function CommitRunFailure(e: Envelope, recoverable: bool, reason: string, message: string, s: Snapshot): Step {
    if recoverable || e.terminal.Some? || !Resolved(e) then Unchanged
    else Write(WithSnapshot(e.(terminal := Some(Terminal(RunFailed, reason, Some(message)))), s))
  }

  /** A migration replaces progress, effects and descriptor by host-supplied
      ones and is admitted only if the target passes the loader's validator. */
  ghost function Migrate(
    e: Envelope, descriptor: Descriptor, progress: Progress, effects: Bytes, chain: seq<string>): Step
  {
    var t := e.(descriptor := descriptor, progress := progress, effects := effects,
                migration := Some(MigrationProvenance(e.revision, e.digest, chain)));
    if progress.pointer == "" || !CollectionsValid(t) then Refused(ErrMigrationInvalid) else Write(t)
  }

  // ------------------------------------------------------------- soundness

  lemma SaveSound(e: Envelope, s: Snapshot)
    requires EnvInv(e) && e.revision < MAX_UINT64 && e.terminal.None? && s.pointer != ""
    ensures StepSound(e, Save(e, s))
  {
    hide EnvInv, Sound, Resolved;
    ResolvedIsIdle(e);
    if Save(e, s).Write? {
      CursorMoved(e, Save(e, s).target);
    }
  }

  lemma CommitStepSound(e: Envelope, retry: bool, end: StepEnd, s: Snapshot)
    requires EnvInv(e) && e.revision < MAX_UINT64 && e.terminal.None? && s.pointer != ""
    ensures StepSound(e, CommitStep(e, retry, end, s))
    ensures CommitStep(e, retry, end, s).Write? ==> Idle(e)
  {
    hide EnvInv, Sound, Resolved;
    ResolvedIsIdle(e);
    if CommitStep(e, retry, end, s).Write? {
      CursorMoved(e, CommitStep(e, retry, end, s).target);
    }
  }

  lemma CommitRunFailureSound(e: Envelope, recoverable: bool, reason: string, message: string, s: Snapshot)
    requires EnvInv(e) && e.revision < MAX_UINT64 && s.pointer != ""
    ensures StepSound(e, CommitRunFailure(e, recoverable, reason, message, s))
  {
    hide EnvInv, Sound, Resolved;
    ResolvedIsIdle(e);
    if CommitRunFailure(e, recoverable, reason, message, s).Write? {
      CursorMoved(e, CommitRunFailure(e, recoverable, reason, message, s).target);
    }
  }

  lemma MigrateSound(e: Envelope, descriptor: Descriptor, progress: Progress, effects: Bytes, chain: seq<string>)
    requires EnvInv(e) && e.revision < MAX_UINT64
    ensures StepSound(e, Migrate(e, descriptor, progress, effects, chain))
  {
    hide JournalValid, RecordsInductive, JournalExtends, ChildrenValid, WaitsValid, ChildrenExtend;
    hide WaitsExtend, W.ValidProfile, JournalRefsValid, GroupRefsValid;
    var step := Migrate(e, descriptor, progress, effects, chain);
    if step.Write? {
      var t := step.target;
      var f := Next(e, t);
      JournalCarried(t, f);
      InductiveCarried(e, f);
      ChildrenCarried(t, f);
      WaitsCarried(t, f);
      JournalSame(e, f);
      ChildrenSame(e, f);
      WaitsSame(e, f);
    }
  }
}
