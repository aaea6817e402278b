/** The inductive strengthening of the loader's validator, how aggregates of one
    run relate, and what a write to one collection leaves untouched. */
module AggregateInvariant {
  import opened Basics
  import opened Envelopes
  import A = ActivityRecords
  import S = ActivitySteps
  import C = ChildRecords
  import G = ChildGroups
  import H = ChildSteps
  import L = ChildCapacity
  import W = WaitArbitration

  /** No activity and no child group is outstanding. */
  predicate Idle(e: Envelope) {
    && (forall k :: k in e.journal ==> !A.Unresolved(e.journal[k].state))
    && (forall k :: k in e.children ==> C.Merged(e.children[k]))
  }

  predicate HasArmed(e: Envelope) {
    exists k :: k in e.waits && e.waits[k].state.Armed?
  }

  predicate Transferred(e: Envelope) {
    e.terminal.Some? && e.terminal.value.status.RunTransferred?
  }

  predicate RecordsInductive(e: Envelope) {
    forall k :: k in e.journal ==> S.RecordInv(e.journal[k])
  }

  /** What every aggregate a session works on satisfies: the validator, the
      inductive form of each record, an activation that cannot wrap around, and
      transfer only with its terminal. */
  ghost predicate EnvInv(e: Envelope) {
    && e.executionID != "" && e.progress.pointer != "" && 1 <= e.activation <= e.revision
    && CollectionsValid(e) && RecordsInductive(e)
    && (e.transfer.Some? <==> Transferred(e))
  }

  /** Nothing is outstanding behind a terminal or an armed wait. The loader does
      not demand it, and a call that node code makes after its step can break it. */
  predicate Gated(e: Envelope) {
    NodeActive(e) || Idle(e)
  }

  /** Everything outstanding is addressed by the cursor. */
  predicate Current(e: Envelope) {
    && (forall k :: k in e.journal && A.Unresolved(e.journal[k].state) ==> CurrentRecord(e, e.journal[k]))
    && (forall k :: k in e.children && !C.Merged(e.children[k]) ==> CurrentGroup(e, e.children[k]))
  }

  predicate JournalHeld(e: Envelope) {
    && (forall k :: k in e.journal ==>
          k == e.journal[k].identity && S.RecordInv(e.journal[k]) && RecordHeld(e, e.journal[k]))
    && JournalRefsValid(e)
  }

  ghost predicate ChildrenHeld(e: Envelope) {
    && OutcomesDistinct(e.children)
    && (forall k :: k in e.children ==> k == C.GroupIdentity(e.children[k]) && G.GroupInv(e.children[k], e.revision))
    && (forall k :: k in e.children ==> GroupHeld(e, e.children[k]))
    && GroupRefsValid(e)
    && L.LedgerHolds(e.children)
  }

  /** What every committed aggregate satisfies, even one that does not load:
      the invariant without the demand that the cursor addresses everything
      outstanding. */
  ghost predicate CoreInv(e: Envelope) {
    && e.executionID != "" && e.progress.pointer != "" && 1 <= e.activation <= e.revision
    && (e.profile.Some? ==> W.ValidProfile(e.profile.value))
    && JournalHeld(e) && ChildrenHeld(e) && WaitsValid(e)
    && (e.transfer.Some? <==> Transferred(e))
  }

  /** The loader accepts a committed aggregate exactly when it is current. */
  lemma LoadsIff(e: Envelope)
    requires CoreInv(e)
    ensures CollectionsValid(e) <==> Current(e)
    ensures Current(e) ==> EnvInv(e)
  {
    JournalLoads(e);
    ChildrenLoad(e);
    hide JournalValid, JournalHeld, ChildrenValid, ChildrenHeld, WaitsValid, RecordsInductive, CurrentRecord;
    hide CurrentGroup;
  }

  lemma JournalLoads(e: Envelope)
    requires JournalHeld(e)
    ensures RecordsInductive(e)
    ensures JournalValid(e) <==>
      forall k :: k in e.journal && A.Unresolved(e.journal[k].state) ==> CurrentRecord(e, e.journal[k])
  {
    hide A.ValidRecord, RecordHeld, CurrentRecord, JournalRefsValid;
    forall k | k in e.journal
      ensures RecordAt(e, e.journal[k]) <==> (A.Unresolved(e.journal[k].state) ==> CurrentRecord(e, e.journal[k]))
    {
    }
  }

  lemma ChildrenLoad(e: Envelope)
    requires ChildrenHeld(e)
    ensures ChildrenValid(e) <==>
      forall k :: k in e.children && !C.Merged(e.children[k]) ==> CurrentGroup(e, e.children[k])
  {
    hide OutcomesDistinct, L.LedgerHolds, G.GroupInv, GroupHeld, CurrentGroup, GroupRefsValid;
    forall k | k in e.children
      ensures GroupAt(e, e.children[k]) <==> (!C.Merged(e.children[k]) ==> CurrentGroup(e, e.children[k]))
    {
    }
  }

  lemma EnvIsCore(e: Envelope)
    requires EnvInv(e)
    ensures CoreInv(e) && Current(e)
  {
    hide A.ValidRecord, RecordHeld, CurrentRecord, JournalRefsValid, OutcomesDistinct, L.LedgerHolds, G.GroupInv;
    hide GroupHeld, CurrentGroup, GroupRefsValid, WaitsValid;
    forall k | k in e.journal ensures RecordAt(e, e.journal[k]) {
    }
    forall k | k in e.children ensures GroupAt(e, e.children[k]) {
    }
  }

  /** A terminal is final, except that a completed run may be transferred. */
  predicate TerminalExtends(t: Option<Terminal>, u: Option<Terminal>) {
    || t.None? || u == t
    || (t.value.status.RunCompleted? && u.Some? && u.value.status.RunTransferred?)
  }

  predicate JournalExtends(e: Envelope, f: Envelope) {
    forall k :: k in e.journal ==> k in f.journal && S.RecordExtends(e.journal[k], f.journal[k])
  }

  predicate ChildrenExtend(e: Envelope, f: Envelope) {
    forall k :: k in e.children ==> k in f.children && H.GroupExtends(e.children[k], f.children[k])
  }

  predicate WaitsExtend(e: Envelope, f: Envelope) {
    forall k :: k in e.waits ==> k in f.waits && W.WaitExtends(e.waits[k], f.waits[k])
  }

  /** How a later envelope of the same execution relates to an earlier one. */
  predicate Extends(e: Envelope, f: Envelope) {
    && f.executionID == e.executionID && f.fork == e.fork && f.rollover == e.rollover
    && e.activation <= f.activation
    && JournalExtends(e, f) && ChildrenExtend(e, f) && WaitsExtend(e, f)
    && TerminalExtends(e.terminal, f.terminal)
  }

  lemma ExtendsTransitive(e: Envelope, f: Envelope, g: Envelope)
    requires Extends(e, f) && Extends(f, g)
    ensures Extends(e, g)
  {
    forall k | k in e.journal ensures k in g.journal && S.RecordExtends(e.journal[k], g.journal[k]) {
      S.RecordExtendsTransitive(e.journal[k], f.journal[k], g.journal[k]);
    }
    forall k | k in e.children ensures k in g.children && H.GroupExtends(e.children[k], g.children[k]) {
      H.GroupExtendsTransitive(e.children[k], f.children[k], g.children[k]);
    }
    forall k | k in e.waits ensures k in g.waits && W.WaitExtends(e.waits[k], g.waits[k]) {
      W.WaitExtendsTransitive(e.waits[k], f.waits[k], g.waits[k]);
    }
  }

  lemma JournalSame(e: Envelope, f: Envelope)
    requires f.journal == e.journal
    ensures JournalExtends(e, f)
  {
  }

  lemma ChildrenSame(e: Envelope, f: Envelope)
    requires f.children == e.children
    ensures ChildrenExtend(e, f)
  {
  }

  lemma WaitsSame(e: Envelope, f: Envelope)
    requires f.waits == e.waits
    ensures WaitsExtend(e, f)
  {
  }

  /** The envelope a commit of `target` over `e` stores. */
  function Next(e: Envelope, target: Envelope): Envelope {
    Sealed(target, Increment(e.revision))
  }

  /** A committed successor keeps the invariant and extends its source. */
  ghost predicate Sound(e: Envelope, target: Envelope) {
    EnvInv(Next(e, target)) && Extends(e, Next(e, target))
  }

  /** What an operation asks the store to do with its source envelope.
      `Outstanding` refuses a cursor move while work is unresolved. */
  datatype Step = Refused(error: Error) | Outstanding | Unchanged | Write(target: Envelope)

  ghost predicate StepSound(e: Envelope, step: Step) {
    step.Write? ==> Sound(e, step.target)
  }

  /** A node may act: the run is neither over nor waiting. */
  predicate NodeActive(e: Envelope) {
    e.terminal.None? && !HasArmed(e)
  }

  // ------------------------------------------------------------------ frames

  /** The parts no write of an execution touches. */
  predicate SameExecution(e: Envelope, f: Envelope) {
    && f.executionID == e.executionID && f.fork == e.fork && f.rollover == e.rollover && f.profile == e.profile
    && e.activation <= f.activation && e.revision <= f.revision
  }

  predicate SameCursor(e: Envelope, f: Envelope) {
    && f.progress.pointer == e.progress.pointer && f.activation == e.activation
    && f.progress.journalRefs == e.progress.journalRefs && f.progress.groupRefs == e.progress.groupRefs
  }

  predicate NoneUnresolved(e: Envelope) {
    forall k :: k in e.journal ==> !A.Unresolved(e.journal[k].state)
  }

  predicate AllMerged(e: Envelope) {
    forall k :: k in e.children ==> C.Merged(e.children[k])
  }

  /** An untouched journal stays valid when the cursor stays, or when it moves
      with nothing outstanding. */
  lemma JournalCarried(e: Envelope, f: Envelope)
    requires JournalValid(e) && SameExecution(e, f) && f.journal == e.journal
    requires SameCursor(e, f) || (NoneUnresolved(e) && JournalRefsValid(f))
    ensures JournalValid(f)
  {
    hide A.ValidRecord, RecordAt;
    forall k | k in f.journal ensures RecordAt(f, f.journal[k]) {
      RecordCarried(e, f, e.journal[k]);
    }
  }

  lemma ChildrenCarried(e: Envelope, f: Envelope)
    requires ChildrenValid(e) && SameExecution(e, f) && f.children == e.children
    requires SameCursor(e, f) || (AllMerged(e) && GroupRefsValid(f))
    ensures ChildrenValid(f)
  {
    hide OutcomesDistinct, L.LedgerHolds, G.GroupInv, GroupAt;
    forall k | k in f.children ensures G.GroupInv(f.children[k], f.revision) && GroupAt(f, f.children[k]) {
      G.GroupInvLater(e.children[k], e.revision, f.revision);
      GroupCarried(e, f, e.children[k]);
    }
    hide SameCursor, CurrentGroup;
  }

  lemma GroupCarried(e: Envelope, f: Envelope, g: C.ChildGroup)
    requires GroupAt(e, g) && SameExecution(e, f) && (SameCursor(e, f) || C.Merged(g))
    ensures GroupAt(f, g)
  {
  }

  /** An untouched set of waits: armed and canceled ones pin the cursor and the
      terminal. */
  lemma WaitsCarried(e: Envelope, f: Envelope)
    requires WaitsValid(e) && SameExecution(e, f) && f.waits == e.waits
    requires || (!HasArmed(e) && e.terminal.None?)
             || (f.activation == e.activation && f.progress.pointer == e.progress.pointer && f.terminal == e.terminal)
    ensures WaitsValid(f)
  {
    hide W.ValidWait, WaitAt;
    forall k | k in f.waits ensures W.ValidWait(f.waits[k], f.revision) && WaitAt(f, f.waits[k]) {
      W.ValidWaitLater(e.waits[k], e.revision, f.revision);
      WaitCarried(e, f, e.waits[k]);
    }
  }

  lemma WaitCarried(e: Envelope, f: Envelope, r: W.WaitRecord)
    requires WaitAt(e, r) && SameExecution(e, f)
    requires || (!r.state.Armed? && e.terminal.None?)
             || (f.activation == e.activation && f.progress.pointer == e.progress.pointer && f.terminal == e.terminal)
    ensures WaitAt(f, r)
  {
  }

  // ------------------------------------------------- writing one collection

  /** What a new or changed record must satisfy to enter the journal. */
  predicate RecordFits(e: Envelope, r: A.ActivityRecord, revision: uint64) {
    && S.RecordInv(r) && (r.origin.Simulated? ==> FakeFork(e)) && (r.origin.Live? ==> !FakeFork(e))
    && r.executionID == e.executionID && r.activation == e.activation && BoundActivity(e, r.key) == r.identity
    && (forall i :: 0 <= i < |r.resolutions| ==> r.resolutions[i].sourceRevision < revision)
    && (r.identity in e.journal ==> S.RecordExtends(e.journal[r.identity], r))
  }

  function WithRecord(e: Envelope, r: A.ActivityRecord): Envelope {
    e.(journal := e.journal[r.identity := r])
  }

  lemma RecordWritten(e: Envelope, r: A.ActivityRecord)
    requires EnvInv(e) && e.revision < MAX_UINT64
    requires RecordFits(e, r, Increment(e.revision))
    ensures Sound(e, WithRecord(e, r))
  {
    hide JournalValid, RecordsInductive, RecordFits, JournalExtends, ChildrenValid, WaitsValid, ChildrenExtend;
    hide WaitsExtend, GroupRefsValid, W.ValidProfile;
    var f := Next(e, WithRecord(e, r));
    RecordEnters(e, r);
    ChildrenCarried(e, f);
    WaitsCarried(e, f);
    ChildrenSame(e, f);
    WaitsSame(e, f);
  }

  lemma SameKey(e: Envelope, r: A.ActivityRecord)
    requires r.identity in e.journal ==> S.RecordExtends(e.journal[r.identity], r)
    ensures r.identity in e.journal ==> e.journal[r.identity].key == r.key
  {
  }

  lemma RecordEnters(e: Envelope, r: A.ActivityRecord)
    requires JournalValid(e) && RecordsInductive(e)
    requires e.revision < MAX_UINT64 && RecordFits(e, r, Increment(e.revision))
    ensures var f := Next(e, WithRecord(e, r));
      JournalValid(f) && RecordsInductive(f) && JournalExtends(e, f)
  {
    hide A.ValidRecord, S.RecordExtends, RecordAt;
    var f := Next(e, WithRecord(e, r));
    SameKey(e, r);
    RecordFitsAt(e, r);
    forall k | k in f.journal
      ensures k == f.journal[k].identity && S.RecordInv(f.journal[k]) && RecordAt(f, f.journal[k])
    {
      if k != r.identity {
        RecordCarried(e, f, e.journal[k]);
      }
    }
    forall k | k in e.journal ensures k in f.journal && S.RecordExtends(e.journal[k], f.journal[k]) {
      if k != r.identity {
        RecordSame(e.journal[k]);
      }
    }
  }

  lemma RecordFitsAt(e: Envelope, r: A.ActivityRecord)
    requires RecordFits(e, r, Increment(e.revision)) && e.revision < MAX_UINT64
    ensures RecordAt(Next(e, WithRecord(e, r)), r)
  {
    hide S.RecordInv, S.RecordExtends;
  }

  lemma RecordCarried(e: Envelope, f: Envelope, r: A.ActivityRecord)
    requires RecordAt(e, r) && SameExecution(e, f) && (SameCursor(e, f) || !A.Unresolved(r.state))
    ensures RecordAt(f, r)
  {
  }

  lemma RecordSame(r: A.ActivityRecord)
    ensures S.RecordExtends(r, r)
  {
  }

  // ------------------------------------------------------------ child groups

  function WithGroup(e: Envelope, h: C.ChildGroup): Envelope {
    e.(children := e.children[C.GroupIdentity(h) := h])
  }

  /** What a new or changed group must satisfy to be written. */
  ghost predicate GroupFits(e: Envelope, h: C.ChildGroup, revision: uint64) {
    && G.GroupInv(h, revision) && CurrentGroup(e, h)
    && (C.GroupIdentity(h) in e.children ==> H.GroupExtends(e.children[C.GroupIdentity(h)], h))
    && L.LedgerHolds(WithGroup(e, h).children) && OutcomesDistinct(WithGroup(e, h).children)
  }

  lemma GroupWritten(e: Envelope, h: C.ChildGroup)
    requires EnvInv(e) && e.revision < MAX_UINT64
    requires GroupFits(e, h, Increment(e.revision))
    ensures Sound(e, WithGroup(e, h))
  {
    hide JournalValid, RecordsInductive, GroupFits, JournalExtends, ChildrenValid, WaitsValid, ChildrenExtend;
    hide WaitsExtend, JournalRefsValid, W.ValidProfile;
    var f := Next(e, WithGroup(e, h));
    GroupEnters(e, h);
    JournalCarried(e, f);
    InductiveCarried(e, f);
    WaitsCarried(e, f);
    JournalSame(e, f);
    WaitsSame(e, f);
  }

  lemma InductiveCarried(e: Envelope, f: Envelope)
    requires RecordsInductive(e) && f.journal == e.journal
    ensures RecordsInductive(f)
  {
    hide S.RecordInv;
  }

  lemma GroupEnters(e: Envelope, h: C.ChildGroup)
    requires ChildrenValid(e) && e.activation != 0 && e.revision < MAX_UINT64
    requires GroupFits(e, h, Increment(e.revision))
    ensures var f := Next(e, WithGroup(e, h)); ChildrenValid(f) && ChildrenExtend(e, f)
  {
    hide G.GroupInv, H.GroupExtends, GroupAt, L.LedgerHolds, OutcomesDistinct;
    var f := Next(e, WithGroup(e, h));
    forall k | k in f.children
      ensures k == C.GroupIdentity(f.children[k]) && G.GroupInv(f.children[k], f.revision) && GroupAt(f, f.children[k])
    {
      if k == C.GroupIdentity(h) {
        GroupIsAt(e, f, h);
      } else {
        G.GroupInvLater(e.children[k], e.revision, f.revision);
        GroupCarried(e, f, e.children[k]);
      }
    }
    forall k | k in e.children ensures k in f.children && H.GroupExtends(e.children[k], f.children[k]) {
      if k != C.GroupIdentity(h) {
        GroupSame(e.children[k]);
      }
    }
  }

  lemma GroupIsAt(e: Envelope, f: Envelope, h: C.ChildGroup)
    requires CurrentGroup(e, h) && SameExecution(e, f) && SameCursor(e, f) && e.activation != 0
    ensures GroupAt(f, h)
  {
  }

  lemma GroupSame(g: C.ChildGroup)
    ensures H.GroupExtends(g, g)
  {
  }

  // ------------------------------------------------------- moving the cursor

  /** A step commit: nothing is outstanding, so the cursor may move freely. It
      either stays in its activation with its references or starts the next one
      without any. */
  predicate CursorStep(e: Envelope, t: Envelope) {
    && t == e.(progress := t.progress, effects := t.effects, runMeta := t.runMeta, activation := t.activation,
               terminal := t.terminal)
    && t.progress.pointer != "" && (t.terminal.Some? ==> !t.terminal.value.status.RunTransferred?)
    && (|| (&& t.activation == e.activation && t.progress.journalRefs == e.progress.journalRefs
            && t.progress.groupRefs == e.progress.groupRefs)
        || (&& t.activation == Increment(e.activation) && t.progress.journalRefs == map[]
            && t.progress.groupRefs == map[]))
  }

  lemma CursorMoved(e: Envelope, t: Envelope)
    requires EnvInv(e) && e.revision < MAX_UINT64 && NodeActive(e) && Idle(e) && CursorStep(e, t)
    ensures Sound(e, t)
  {
    hide JournalValid, RecordsInductive, JournalExtends, ChildrenValid, WaitsValid, ChildrenExtend;
    hide WaitsExtend, W.ValidProfile, JournalRefsValid, GroupRefsValid;
    var f := Next(e, t);
    RefsCarried(e, f);
    JournalCarried(e, f);
    InductiveCarried(e, f);
    ChildrenCarried(e, f);
    WaitsCarried(e, f);
    JournalSame(e, f);
    ChildrenSame(e, f);
    WaitsSame(e, f);
  }

  lemma RefsCarried(e: Envelope, f: Envelope)
    requires JournalValid(e) && ChildrenValid(e) && f.journal == e.journal && f.children == e.children
    requires
      || (&& f.activation == e.activation && f.progress.journalRefs == e.progress.journalRefs
          && f.progress.groupRefs == e.progress.groupRefs)
      || (f.progress.journalRefs == map[] && f.progress.groupRefs == map[])
    ensures JournalRefsValid(f) && GroupRefsValid(f)
  {
    hide A.ValidRecord, RecordAt, G.GroupInv, OutcomesDistinct, L.LedgerHolds, GroupAt;
  }
}
