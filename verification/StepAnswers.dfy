/** What steps, snapshots, failures and migrations answer: when each writes, what
    terminal it leaves and where the cursor stands. */
module StepAnswers {
  import opened Basics
  import opened Envelopes
  import opened AggregateInvariant
  import opened StepOps

  /** Nothing is outstanding and no wait is armed. */
  predicate Settled(e: Envelope) {
    Idle(e) && !HasArmed(e)
  }

  /** The snapshot is the caller's; every collection and all provenance is kept. */
  predicate Snapshots(e: Envelope, t: Envelope, s: Snapshot) {
    && t == e.(progress := t.progress, effects := s.effects, runMeta := s.runMeta, activation := t.activation,
               terminal := t.terminal)
    && t.progress.pointer == s.pointer && t.progress.state == s.state
    && t.progress.childCursors == e.progress.childCursors
  }

  predicate SameActivation(e: Envelope, t: Envelope) {
    && t.activation == e.activation && t.progress.journalRefs == e.progress.journalRefs
    && t.progress.groupRefs == e.progress.groupRefs
  }

  predicate NextActivation(e: Envelope, t: Envelope) {
    t.activation == Increment(e.activation) && t.progress.journalRefs == map[] && t.progress.groupRefs == map[]
  }

  /** The terminal says how the step ended: completed without a failure, or failed
      with the error's message, or with the reason if there is none. */
  predicate EndsAs(end: StepEnd, terminal: Option<Terminal>) {
    end.Ends? ==>
      && terminal.Some? && terminal.value.status == end.status && terminal.value.reason == end.reason
      && terminal.value.failure == (
           if end.status.RunCompleted? then None
           else if end.error.Some? then end.error else Some(end.reason))
  }

  lemma SaveAnswer(e: Envelope, s: Snapshot)
    requires EnvInv(e)
    ensures if Settled(e) then
        var step := Save(e, s);
        && step.Write? && Snapshots(e, step.target, s) && SameActivation(e, step.target)
        && step.target.terminal == e.terminal
      else Save(e, s) == Outstanding
  {
    hide EnvInv, Resolved, Idle, HasArmed;
    ResolvedIsIdle(e);
  }

  /** Exactly when a step is committed, and what it leaves. A node that retries
      itself stays in its activation; any other step starts the next one. */
  lemma StepAnswer(e: Envelope, retry: bool, end: StepEnd, s: Snapshot)
    requires EnvInv(e)
    ensures var step := CommitStep(e, retry, end, s);
      if end.Waits? then step == Unchanged
      else if !Settled(e) then step == Outstanding
      else if end.EndsUnsaved? || (end.Ends? && !end.status.RunCompleted? && !end.status.RunFailed?)
      then step == Unchanged
      else step.Write? && Stepped(e, step.target, retry, end, s)
  {
    hide EnvInv, Resolved, Idle, HasArmed;
    ResolvedIsIdle(e);
  }

  predicate Stepped(e: Envelope, t: Envelope, retry: bool, end: StepEnd, s: Snapshot) {
    && Snapshots(e, t, s) && EndsAs(end, t.terminal) && (!end.Ends? ==> t.terminal == e.terminal)
    && (if retry && s.pointer == e.progress.pointer then SameActivation(e, t) else NextActivation(e, t))
  }

  /** A failure ends an unfinished run exactly if it is definite and nothing is
      outstanding; otherwise nothing is written. */
  lemma FailureAnswer(e: Envelope, recoverable: bool, reason: string, message: string, s: Snapshot)
    requires EnvInv(e)
    ensures var step := CommitRunFailure(e, recoverable, reason, message, s);
      if recoverable || e.terminal.Some? || !Settled(e) then step == Unchanged
      else step.Write? && FailedRun(e, step.target, reason, message, s)
  {
    hide EnvInv, Resolved, Idle, HasArmed;
    ResolvedIsIdle(e);
  }

  predicate FailedRun(e: Envelope, t: Envelope, reason: string, message: string, s: Snapshot) {
    && Snapshots(e, t, s) && SameActivation(e, t) && t.terminal.Some? && t.terminal.value.status.RunFailed?
    && t.terminal.value.reason == reason && t.terminal.value.failure == Some(message)
  }

  /** A migration replaces exactly what the host migrated and records from which
      revision, sealed how, and along which chain. */
  lemma MigrateAnswer(e: Envelope, descriptor: Descriptor, progress: Progress, effects: Bytes, chain: seq<string>)
    ensures var step := Migrate(e, descriptor, progress, effects, chain);
      step.Write? ==>
        && CollectionsValid(step.target) && step.target.progress == progress && progress.pointer != ""
        && step.target.descriptor == descriptor && step.target.effects == effects && step.target.migration.Some?
        && step.target.migration.value.sourceRevision == e.revision
        && step.target.migration.value.sourceDigest == e.digest && step.target.migration.value.chain == chain
        && step.target == e.(descriptor := descriptor, progress := progress, effects := effects,
                             migration := step.target.migration)
    ensures var step := Migrate(e, descriptor, progress, effects, chain);
      !step.Write? ==> step == Refused(ErrMigrationInvalid)
  {
    hide CollectionsValid;
  }

  /** A migration that moves no cursor of a valid aggregate is always admitted. */
  lemma MigrateAdmits(e: Envelope, descriptor: Descriptor, progress: Progress, effects: Bytes, chain: seq<string>)
    requires EnvInv(e) && progress.pointer == e.progress.pointer && progress.journalRefs == e.progress.journalRefs
    requires progress.groupRefs == e.progress.groupRefs
    ensures Migrate(e, descriptor, progress, effects, chain).Write?
  {
    var t := e.(descriptor := descriptor, progress := progress, effects := effects,
                migration := Some(MigrationProvenance(e.revision, e.digest, chain)));
    hide JournalValid, ChildrenValid, WaitsValid, RecordsInductive, JournalRefsValid, GroupRefsValid;
    JournalCarried(e, t);
    ChildrenCarried(e, t);
    WaitsCarried(e, t);
  }
}
