/** First revisions and transferred revisions satisfy the aggregate invariant. */
module Transfers {
  import opened Basics
  import opened Envelopes
  import opened AggregateInvariant
  import opened Lifecycle
  import W = WaitArbitration

  /** What start, fork, import and rollover commit as a first revision: no
      journal, children or waits, and the first activation. */
  ghost predicate Fresh(e: Envelope) {
    && e.executionID != "" && e.progress.pointer != "" && e.activation == 1
    && e.terminal.None? && e.transfer.None?
    && e.journal == map[] && e.children == map[] && e.waits == map[] && CollectionsValid(e)
  }

  lemma FreshSound(e: Envelope)
    requires Fresh(e)
    ensures EnvInv(Sealed(e, 1))
  {
    var f := Sealed(e, 1);
    hide W.ValidProfile;
    assert JournalValid(f);
    assert ChildrenValid(f) by {
      assert f.children == e.children;
    }
    assert WaitsValid(f);
    hide JournalValid, ChildrenValid, WaitsValid;
  }

  lemma TargetIsFresh(source: Envelope, target: Envelope)
    requires FreshTarget(source, target) && CollectionsValid(target) && target.progress.pointer != ""
    ensures Fresh(target)
  {
    hide CollectionsValid;
  }

  /** At a safe boundary nothing is outstanding. */
  lemma BoundaryIsIdle(e: Envelope)
    requires BoundaryError(e).None?
    ensures Idle(e) && !HasArmed(e)
  {
    hide CollectionsValid, IntegrityHolds, MetadataError;
  }

  predicate Transferable(e: Envelope) {
    e.transfer.None? && (e.terminal.Some? ==> e.terminal.value.status.RunCompleted?)
  }

  lemma TransferredSound(e: Envelope, receipt: RolloverReceipt)
    requires EnvInv(e) && e.revision < MAX_UINT64 && Transferable(e) && BoundaryError(e).None?
    ensures Sound(e, e.(transfer := Some(receipt), terminal := Some(Terminal(RunTransferred, "rollover", None))))
  {
    hide JournalValid, RecordsInductive, JournalExtends, ChildrenValid, WaitsValid, ChildrenExtend;
    hide WaitsExtend, W.ValidProfile, JournalRefsValid, GroupRefsValid, BoundaryError;
    var f := Next(e, e.(transfer := Some(receipt), terminal := Some(Terminal(RunTransferred, "rollover", None))));
    BoundaryIsIdle(e);
    JournalCarried(e, f);
    InductiveCarried(e, f);
    ChildrenCarried(e, f);
    WaitsOfTransferred(e, f);
    JournalSame(e, f);
    ChildrenSame(e, f);
    WaitsSame(e, f);
  }

  /** No wait of a transferable run is armed or canceled. */
  lemma WaitsOfTransferred(e: Envelope, f: Envelope)
    requires WaitsValid(e) && SameExecution(e, f) && SameCursor(e, f) && f.waits == e.waits
    requires Transferable(e) && !HasArmed(e)
    ensures WaitsValid(f)
  {
    forall k | k in f.waits ensures W.ValidWait(f.waits[k], f.revision) && WaitAt(f, f.waits[k]) {
      assert WaitAt(e, e.waits[k]) && !e.waits[k].state.Armed?;
      W.ValidWaitLater(e.waits[k], e.revision, f.revision);
      hide W.ValidWait;
    }
    hide W.ValidWait, WaitAt;
  }
}
