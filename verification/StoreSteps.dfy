/** Every store operation keeps the store consistent with itself. */
module StoreSteps {
  import opened Basics
  import opened Envelopes
  import opened Lifecycle
  import opened Retention
  import opened StoreModel

  /** How the store may look later: fences and heads only grow, anchors stay,
      and a stored revision is never rewritten. */
  ghost predicate StoreExtends(s: Store, t: Store) {
    FencesGrow(s, t) && HeadsGrow(s, t) && PayloadsStay(s, t) && AnchorsStay(s, t)
  }

  ghost predicate FencesGrow(s: Store, t: Store) {
    forall id :: Fence(s, id) <= Fence(t, id)
  }

  ghost predicate HeadsGrow(s: Store, t: Store) {
    forall id :: Head(s, id) <= Head(t, id)
  }

  ghost predicate PayloadsStay(s: Store, t: Store) {
    forall id, r: uint64 :: r <= Head(s, id) && Payload(t, id, r).Some? ==> Payload(t, id, r) == Payload(s, id, r)
  }

  predicate AnchorsStay(s: Store, t: Store) {
    && (forall id :: id in s.lineage ==> Lookup(t.lineage, id) == Some(s.lineage[id]))
    && (forall id :: id in s.incoming ==> Lookup(t.incoming, id) == Some(s.incoming[id]))
    && (forall id :: id in s.outgoing ==> Lookup(t.outgoing, id) == Some(s.outgoing[id]))
  }

  lemma StoreExtendsTransitive(s: Store, t: Store, u: Store)
    requires StoreExtends(s, t) && StoreExtends(t, u)
    ensures StoreExtends(s, u)
  {
    forall id ensures Fence(s, id) <= Fence(u, id) && Head(s, id) <= Head(u, id) {
      assert Fence(s, id) <= Fence(t, id) && Head(s, id) <= Head(t, id);
    }
    forall id, r: uint64 | r <= Head(s, id) && Payload(u, id, r).Some?
      ensures Payload(u, id, r) == Payload(s, id, r)
    {
      assert Head(s, id) <= Head(t, id) && Payload(u, id, r) == Payload(t, id, r);
    }
  }

  lemma StoreExtendsSelf(s: Store)
    ensures StoreExtends(s, s)
  {
  }

  // ------------------------------------------------------------------- leases

  lemma AcquireKeeps(s: Store, now: Time, id: string, owner: string, ttl: int)
    requires StoreInv(s) && Acquire(s, now, id, owner, ttl).Ok?
    ensures var (t, lease) := Acquire(s, now, id, owner, ttl).value;
      && StoreInv(t) && StoreExtends(s, t) && lease.incarnation == Fence(s, id) + 1 == Fence(t, id)
      && Held(t, now, lease) && t == s.(fences := t.fences, leases := t.leases)
  {
    hide HistoryConsistent, ChainsLinked, PayloadsStay, HeadsGrow, AnchorsStay;
    PayloadsKept(s, Acquire(s, now, id, owner, ttl).value.0);
  }

  /** Lease operations do not touch payloads, heads or anchors. */
  lemma PayloadsKept(s: Store, t: Store)
    requires HistoryConsistent(s) && ChainsLinked(s) && t == s.(fences := t.fences, leases := t.leases)
    ensures HistoryConsistent(t) && ChainsLinked(t)
    ensures HeadsGrow(s, t) && PayloadsStay(s, t) && AnchorsStay(s, t)
  {
    hide LinkSound, PayloadSound;
    forall id, r: uint64 ensures PayloadSound(t, id, r) {
      SamePayload(s, t, id, r);
    }
    LinksKept(s, t);
  }

  lemma SamePayload(s: Store, t: Store, id: string, r: uint64)
    requires PayloadSound(s, id, r) && t.lineage == s.lineage && t.incoming == s.incoming && t.outgoing == s.outgoing
    requires (Payload(t, id, r) == Payload(s, id, r) || Payload(t, id, r).None?) && Head(t, id) >= Head(s, id)
    ensures PayloadSound(t, id, r)
  {
    hide IntegrityHolds, Anchored;
    if Payload(t, id, r).Some? {
      SameAnchors(s, t, Payload(t, id, r).value, id);
    }
  }

  lemma SameAnchors(s: Store, t: Store, e: Envelope, id: string)
    requires Anchored(s, e, id) && t.lineage == s.lineage && t.incoming == s.incoming && t.outgoing == s.outgoing
    ensures Anchored(t, e, id)
  {
  }

  lemma RenewKeeps(s: Store, now: Time, lease: Lease, ttl: int)
    requires StoreInv(s) && Renew(s, now, lease, ttl).Ok?
    ensures var t := Renew(s, now, lease, ttl).value.0;
      StoreInv(t) && StoreExtends(s, t) && t == s.(leases := t.leases)
  {
    hide HistoryConsistent, ChainsLinked, PayloadsStay, HeadsGrow, AnchorsStay;
    PayloadsKept(s, Renew(s, now, lease, ttl).value.0);
  }

  lemma ReleaseKeeps(s: Store, lease: Lease)
    requires StoreInv(s) && Release(s, lease).Ok?
    ensures var t := Release(s, lease).value; StoreInv(t) && StoreExtends(s, t) && t == s.(leases := t.leases)
  {
    hide HistoryConsistent, ChainsLinked, PayloadsStay, HeadsGrow, AnchorsStay;
    PayloadsKept(s, Release(s, lease).value);
  }

  // ------------------------------------------------------------------ commits

  /** Every stored payload loads. */
  lemma PayloadFacts(s: Store, id: string, r: uint64)
    requires StoreInv(s) && Payload(s, id, r).Some?
    ensures 1 <= r <= Head(s, id) && var e := Payload(s, id, r).value;
      IntegrityHolds(e, id, r) && Anchored(s, e, id) && Decode(s, Some(e), id, r) == Ok(e)
  {
    hide LeasesFenced, ChainsLinked, IntegrityHolds, Anchored;
    assert PayloadSound(s, id, r);
  }

  lemma LinkFacts(s: Store, id: string)
    requires ChainsLinked(s)
    ensures SourceLinked(s, id) && TargetLinked(s, id) && (id in s.lineage ==> id in s.heads)
  {
    hide SourceLinked, TargetLinked;
  }

  /** A receipt known from its target end is as sound as from its source end. */
  lemma IncomingFacts(s: Store, id: string)
    requires ChainsLinked(s) && id in s.incoming
    ensures ValidReceipt(s.incoming[id]) && s.incoming[id].target.executionID == id
  {
    LinkFacts(s, id);
    LinkFacts(s, s.incoming[id].lineage.source.executionID);
    hide ChainsLinked;
  }

  function LineageOf(incoming: Option<RolloverReceipt>): Option<RolloverLineage> {
    match incoming case None => None case Some(r) => Some(r.lineage)
  }

  lemma AnchorFacts(s: Store, e: Envelope, id: string)
    requires Anchored(s, e, id)
    ensures e.fork == Lookup(s.lineage, id) && e.rollover == LineageOf(Lookup(s.incoming, id))
    ensures id in s.outgoing && e.revision >= s.outgoing[id].sourceRevision ==> e.transfer.Some?
    ensures id !in s.outgoing ==> e.transfer.None?
  {
    hide ValidReceipt, ValidFork;
  }

  lemma LeaseFacts(s: Store, now: Time, lease: Lease)
    requires LeasesFenced(s) && Held(s, now, lease)
    ensures lease.incarnation == Fence(s, lease.executionID)
  {
  }

  /** What an accepted commit knows about the head it replaces. */
  lemma CommitFacts(s: Store, now: Time, expected: uint64, lease: Lease, e: Envelope)
    requires StoreInv(s) && CommitError(s, now, expected, lease, e).None?
    ensures expected < MAX_UINT64 && Head(s, e.executionID) == expected && lease.incarnation == Fence(s, e.executionID)
    ensures e.executionID != "" && e.progress.pointer != "" && e.transfer.None? && e.executionID !in s.outgoing
    ensures expected == 0 ==> (
      e.executionID !in s.heads && e.executionID !in s.lineage && e.executionID !in s.incoming && e.rollover.None?)
    ensures expected > 0 ==> Payload(s, e.executionID, expected).Some? && e.fork == Lookup(s.lineage, e.executionID)
    ensures e.fork.Some? ==> ValidFork(e.fork.value) && e.fork.value.targetID == e.executionID
    ensures e.rollover == LineageOf(Lookup(s.incoming, e.executionID))
  {
    hide HistoryConsistent, ChainsLinked, LeasesFenced, IntegrityHolds, Anchored, LinkSound, ValidFork;
    var id := e.executionID;
    LeaseFacts(s, now, lease);
    LinkFacts(s, id);
    HeadFacts(s, id);
    if expected > 0 {
      PayloadFacts(s, id, expected);
      AnchorFacts(s, Payload(s, id, expected).value, id);
      RevisionIs(Payload(s, id, expected).value, id, expected);
    }
  }

  lemma RevisionIs(e: Envelope, id: string, r: uint64)
    requires IntegrityHolds(e, id, r)
    ensures e.revision == r && e.executionID == id
  {
  }

  lemma HeadFacts(s: Store, id: string)
    requires HistoryConsistent(s)
    ensures Head(s, id) == 0 <==> id !in s.heads
    ensures id in s.heads <==> id in s.history
    ensures id in s.heads ==> id != ""
  {
    hide PayloadSound;
  }

  lemma CommitKeeps(s: Store, now: Time, expected: uint64, lease: Lease, e: Envelope)
    requires StoreInv(s) && Commit(s, now, expected, lease, e).Ok?
    ensures var (t, c) := Commit(s, now, expected, lease, e).value;
      && StoreInv(t) && StoreExtends(s, t) && lease.incarnation == Fence(s, e.executionID)
      && c == Sealed(e, Increment(expected)) && Head(s, e.executionID) == expected < MAX_UINT64
      && Head(t, e.executionID) == expected + 1 && Written(s, t, c)
  {
    hide HistoryConsistent, ChainsLinked, LeasesFenced, StoreExtends, Written, CommitError;
    var t := Commit(s, now, expected, lease, e).value.0;
    CommitFacts(s, now, expected, lease, e);
    CommitWrites(s, now, expected, lease, e);
    CommitConsistent(s, t, expected, e);
    CommitLinked(s, t, e.executionID);
    LeasesKept(s, t);
  }

  /** Exactly one payload and one head changed. */
  ghost predicate Written(s: Store, t: Store, c: Envelope) {
    && Payload(t, c.executionID, c.revision) == Some(c) && Head(t, c.executionID) == c.revision
    && (forall id :: id != c.executionID ==> Head(t, id) == Head(s, id))
    && (forall id, r: uint64 :: id != c.executionID || r != c.revision ==> Payload(t, id, r) == Payload(s, id, r))
  }

  lemma LeasesKept(s: Store, t: Store)
    requires LeasesFenced(s) && t.leases == s.leases && t.fences == s.fences
    ensures LeasesFenced(t)
  {
  }

  lemma CommitWrites(s: Store, now: Time, expected: uint64, lease: Lease, e: Envelope)
    requires Commit(s, now, expected, lease, e).Ok? && expected < MAX_UINT64 && Head(s, e.executionID) == expected
    requires expected == 0 ==> e.executionID !in s.lineage
    ensures var (t, c) := Commit(s, now, expected, lease, e).value; Written(s, t, c) && StoreExtends(s, t)
  {
    hide CommitError, ValidFork, ValidReceipt;
    var (t, c) := Commit(s, now, expected, lease, e).value;
    assert Written(s, t, c);
    assert PayloadsStay(s, t);
  }

  predicate Committed(s: Store, t: Store, expected: uint64, e: Envelope) {
    t == s.(
      history := Put(s.history, Sealed(e, Increment(expected))),
      heads := s.heads[e.executionID := Increment(expected)],
      lineage := if expected == 0 && e.fork.Some? then s.lineage[e.executionID := e.fork.value] else s.lineage)
  }

  lemma CommitConsistent(s: Store, t: Store, expected: uint64, e: Envelope)
    requires StoreInv(s) && Committed(s, t, expected, e) && Head(s, e.executionID) == expected < MAX_UINT64
    requires e.executionID != "" && e.progress.pointer != "" && e.transfer.None? && e.executionID !in s.outgoing
    requires expected == 0 ==> (
      e.executionID !in s.heads && e.executionID !in s.lineage && e.executionID !in s.incoming && e.rollover.None?)
    requires expected > 0 ==> e.fork == Lookup(s.lineage, e.executionID)
    requires e.fork.Some? ==> ValidFork(e.fork.value) && e.fork.value.targetID == e.executionID
    requires e.rollover == LineageOf(Lookup(s.incoming, e.executionID))
    ensures HistoryConsistent(t)
  {
    hide LeasesFenced, ChainsLinked, ValidFork, ValidReceipt, IntegrityHolds, Anchored;
    assert e.executionID in s.incoming ==> (
      ValidReceipt(s.incoming[e.executionID]) && s.incoming[e.executionID].target.executionID == e.executionID) by {
      if e.executionID in s.incoming {
        IncomingFacts(s, e.executionID);
      }
    }
    CommittedAnchored(s, t, expected, e);
    forall id, r: uint64 ensures PayloadSound(t, id, r) {
      if id == e.executionID && r == expected + 1 {
      } else if Payload(t, id, r).Some? {
        assert Payload(s, id, r) == Payload(t, id, r);
        PayloadFacts(s, id, r);
        OlderAnchored(s, t, expected, e, id, Payload(t, id, r).value);
      }
    }
  }

  lemma CommittedAnchored(s: Store, t: Store, expected: uint64, e: Envelope)
    requires Committed(s, t, expected, e) && expected < MAX_UINT64
    requires e.executionID != "" && e.progress.pointer != "" && e.transfer.None? && e.executionID !in s.outgoing
    requires expected == 0 ==> e.executionID !in s.lineage && e.executionID !in s.incoming
    requires expected > 0 ==> e.fork == Lookup(s.lineage, e.executionID)
    requires e.fork.Some? ==> ValidFork(e.fork.value) && e.fork.value.targetID == e.executionID
    requires e.rollover == LineageOf(Lookup(s.incoming, e.executionID))
    requires e.executionID in s.incoming ==> (
      ValidReceipt(s.incoming[e.executionID]) && s.incoming[e.executionID].target.executionID == e.executionID)
    ensures IntegrityHolds(Sealed(e, Increment(expected)), e.executionID, expected + 1)
    ensures Anchored(t, Sealed(e, Increment(expected)), e.executionID)
  {
    hide ValidFork;
  }

  lemma OlderAnchored(s: Store, t: Store, expected: uint64, e: Envelope, id: string, older: Envelope)
    requires Committed(s, t, expected, e) && Anchored(s, older, id) && (expected == 0 ==> id != e.executionID)
    ensures Anchored(t, older, id)
  {
    hide ForkAnchored, IncomingAnchored, OutgoingAnchored;
  }

  lemma CommitLinked(s: Store, t: Store, id: string)
    requires ChainsLinked(s) && t.incoming == s.incoming && t.outgoing == s.outgoing && id !in s.outgoing
    requires t.heads == s.heads[id := Head(t, id)] && t.lineage.Keys <= s.lineage.Keys + {id}
    ensures ChainsLinked(t)
  {
    hide SourceLinked, TargetLinked;
    forall a ensures SourceLinked(t, a) && TargetLinked(t, a) {
      LinkKept(s, t, a, id);
    }
  }

  lemma LinkKept(s: Store, t: Store, a: string, id: string)
    requires SourceLinked(s, a) && TargetLinked(s, a) && id !in s.outgoing
    requires t.outgoing == s.outgoing && t.incoming == s.incoming && t.heads == s.heads[id := Head(t, id)]
    ensures SourceLinked(t, a) && TargetLinked(t, a)
  {
    hide ValidReceipt;
  }

  lemma LinksKept(s: Store, t: Store)
    requires ChainsLinked(s) && t.incoming == s.incoming && t.outgoing == s.outgoing
    requires t.heads == s.heads && t.lineage == s.lineage
    ensures ChainsLinked(t)
  {
    hide SourceLinked, TargetLinked;
    forall a ensures SourceLinked(t, a) && TargetLinked(t, a) {
      SameLink(s, t, a);
    }
  }

  lemma SameLink(s: Store, t: Store, a: string)
    requires SourceLinked(s, a) && TargetLinked(s, a)
    requires t.outgoing == s.outgoing && t.incoming == s.incoming && t.heads == s.heads
    ensures SourceLinked(t, a) && TargetLinked(t, a)
  {
    hide ValidReceipt;
  }

  // ----------------------------------------------------------------- rollover

  /** A publication is admissible in a store: the source is the untransferred
      head of its execution, the target was never acquired or committed. */
  predicate Publishable(s: Store, current: Envelope, target: Envelope) {
    && Payload(s, current.executionID, current.revision) == Some(current)
    && Head(s, current.executionID) == current.revision < MAX_UINT64 && current.executionID !in s.outgoing
    && target.executionID !in s.heads && target.executionID !in s.fences
    && FreshTarget(current, target) && target.progress.pointer != ""
    && current.fork.None? && (current.terminal.Some? ==> current.terminal.value.status.RunCompleted?)
    && target.runMeta.stepCount == 0 && target.runMeta.retryCounts == current.runMeta.retryCounts
    && target.runMeta.budgetCounts == current.runMeta.budgetCounts
  }

  lemma RolloverFacts(
    s: Store, now: Time, lease: Lease, source: Reference, target: Envelope, sizes: Sizes)
    returns (current: Envelope)
    requires StoreInv(s) && CommitRollover(s, now, lease, source, target, sizes).Ok?
    ensures Publishable(s, current, target) && current.executionID == source.executionID && target.rollover.Some?
    ensures lease.executionID == source.executionID && lease.incarnation == Fence(s, source.executionID)
    ensures BoundaryError(current).None? && CollectionsValid(target)
    ensures CommitRollover(s, now, lease, source, target, sizes) ==
      var p := Publish(current, target, target.rollover.value); Ok((PublishPair(s, p), p.receipt))
  {
    hide HistoryConsistent, ChainsLinked, LeasesFenced, BoundaryError, CollectionsValid, Continues, Anchored;
    hide PreparePublication;
    current := Payload(s, source.executionID, source.revision).value;
    PublicationFacts(current, target, lease, sizes);
    HeadFacts(s, target.executionID);
    LeaseFacts(s, now, lease);
    FenceFacts(s, target.executionID);
  }

  lemma FenceFacts(s: Store, id: string)
    requires LeasesFenced(s)
    ensures Fence(s, id) == 0 <==> id !in s.fences
  {
  }

  lemma RolloverKeeps(s: Store, current: Envelope, target: Envelope)
    requires StoreInv(s) && Publishable(s, current, target)
    ensures var p := Publish(current, target, target.rollover.value); var t := PublishPair(s, p);
      StoreInv(t) && StoreExtends(s, t) && Published(s, t, p)
  {
    var p := Publish(current, target, target.rollover.value);
    var t := PublishPair(s, p);
    hide HistoryConsistent, ChainsLinked, LeasesFenced, StoreExtends, Published, LinkSound, Anchored;
    HeadFacts(s, target.executionID);
    LinkFacts(s, target.executionID);
    PublishWrites(s, current, target);
    PairWrites(s, p);
    PublishConsistent(s, current, target);
    PublishLinked(s, current, target);
    LeasesKept(s, t);
  }

  ghost predicate Published(s: Store, t: Store, p: Publication) {
    var a, b := p.transferred.executionID, p.created.executionID;
    && Payload(t, a, p.transferred.revision) == Some(p.transferred) && Head(t, a) == p.transferred.revision
    && Payload(t, b, 1) == Some(p.created) && Head(t, b) == 1
    && (forall id :: id != a && id != b ==> Head(t, id) == Head(s, id))
    && (forall id, r: uint64 :: (id != a || r != p.transferred.revision) && (id != b || r != 1) ==>
          Payload(t, id, r) == Payload(s, id, r))
  }

  /** A pair of two executions, the second one unknown to the store so far. */
  predicate PairOf(s: Store, p: Publication) {
    && p.transferred.executionID != p.created.executionID && p.created.revision == 1
    && Head(s, p.transferred.executionID) < p.transferred.revision && p.transferred.executionID !in s.outgoing
    && p.created.executionID !in s.heads && p.created.executionID !in s.history && p.created.executionID !in s.incoming
  }

  lemma PairWrites(s: Store, p: Publication)
    requires PairOf(s, p)
    ensures Published(s, PublishPair(s, p), p) && StoreExtends(s, PublishPair(s, p))
  {
    var t := PublishPair(s, p);
    var a, b := p.transferred.executionID, p.created.executionID;
    assert t.history[b] == map[1 := p.created];
    assert t.history[a][p.transferred.revision] == p.transferred;
    assert Published(s, t, p);
    hide Put, Published;
    PairExtends(s, t, p);
  }

  lemma PairExtends(s: Store, t: Store, p: Publication)
    requires PairOf(s, p) && Published(s, t, p) && t.fences == s.fences && t.lineage == s.lineage
    requires t.outgoing == s.outgoing[p.transferred.executionID := p.receipt]
    requires t.incoming == s.incoming[p.created.executionID := p.receipt]
    ensures StoreExtends(s, t)
  {
    hide Head, Fence, Payload;
    assert FencesGrow(s, t) by {
      SameFences(s, t);
    }
    assert Head(s, p.created.executionID) == 0 by {
      NoHead(s, p.created.executionID);
    }
  }

  lemma SameFences(s: Store, t: Store)
    requires t.fences == s.fences
    ensures FencesGrow(s, t)
  {
  }

  lemma NoHead(s: Store, id: string)
    requires id !in s.heads
    ensures Head(s, id) == 0
  {
  }

  lemma PublishWrites(s: Store, current: Envelope, target: Envelope)
    requires Publishable(s, current, target) && target.executionID !in s.history && target.executionID !in s.incoming
    ensures PairOf(s, Publish(current, target, target.rollover.value))
  {
    hide ValidLineage;
  }

  lemma PublishConsistent(s: Store, current: Envelope, target: Envelope)
    requires StoreInv(s) && Publishable(s, current, target)
    requires var p := Publish(current, target, target.rollover.value); Published(s, PublishPair(s, p), p)
    ensures HistoryConsistent(PublishPair(s, Publish(current, target, target.rollover.value)))
  {
    hide LeasesFenced, ChainsLinked, IntegrityHolds, Anchored, PayloadSound;
    var p := Publish(current, target, target.rollover.value);
    var t := PublishPair(s, p);
    HeadFacts(s, current.executionID);
    FreshFacts(current, target);
    hide FreshTarget;
    forall id, r: uint64 ensures PayloadSound(t, id, r) {
      PublishSound(s, current, target, id, r);
    }
  }

  lemma PublishSound(s: Store, current: Envelope, target: Envelope, id: string, r: uint64)
    requires StoreInv(s) && Publishable(s, current, target)
    requires var p := Publish(current, target, target.rollover.value); Published(s, PublishPair(s, p), p)
    ensures PayloadSound(PublishPair(s, Publish(current, target, target.rollover.value)), id, r)
  {
    hide HistoryConsistent, LeasesFenced, ChainsLinked, IntegrityHolds, Anchored, PublishPair;
    var p := Publish(current, target, target.rollover.value);
    var t := PublishPair(s, p);
    var a, b := current.executionID, target.executionID;
    FreshFacts(current, target);
    PayloadFacts(s, a, current.revision);
    LinkFacts(s, b);
    HeadFacts(s, b);
    hide FreshTarget, LinkSound;
    if id == a && r == Increment(current.revision) {
      TransferredAnchored(s, current, target);
    } else if id == b && r == 1 {
      CreatedAnchored(s, current, target);
    } else if Payload(t, id, r).Some? {
      PayloadFacts(s, id, r);
      RevisionIs(Payload(s, id, r).value, id, r);
      EarlierAnchored(s, current, target, Payload(s, id, r).value);
    }
  }

  lemma FreshFacts(current: Envelope, target: Envelope)
    requires FreshTarget(current, target)
    ensures target.executionID != current.executionID && target.executionID != ""
  {
  }

  lemma TransferredAnchored(s: Store, current: Envelope, target: Envelope)
    requires Publishable(s, current, target) && Anchored(s, current, current.executionID)
    requires IntegrityHolds(current, current.executionID, current.revision)
    ensures var p := Publish(current, target, target.rollover.value); var t := PublishPair(s, p);
      && IntegrityHolds(p.transferred, current.executionID, Increment(current.revision))
      && Anchored(t, p.transferred, current.executionID)
  {
  }

  lemma CreatedAnchored(s: Store, current: Envelope, target: Envelope)
    requires Publishable(s, current, target)
    requires target.executionID !in s.lineage && target.executionID !in s.outgoing
    ensures var p := Publish(current, target, target.rollover.value); var t := PublishPair(s, p);
      IntegrityHolds(p.created, target.executionID, 1) && Anchored(t, p.created, target.executionID)
  {
  }

  lemma EarlierAnchored(s: Store, current: Envelope, target: Envelope, older: Envelope)
    requires Publishable(s, current, target) && older.executionID != target.executionID
    requires Anchored(s, older, older.executionID) && older.revision <= Head(s, older.executionID)
    requires Payload(s, older.executionID, older.revision) == Some(older)
    ensures Anchored(PublishPair(s, Publish(current, target, target.rollover.value)), older, older.executionID)
  {
  }

  lemma PublishLinked(s: Store, current: Envelope, target: Envelope)
    requires StoreInv(s) && Publishable(s, current, target)
    ensures ChainsLinked(PublishPair(s, Publish(current, target, target.rollover.value)))
  {
    hide LeasesFenced, HistoryConsistent, LinkSound, Anchored, IntegrityHolds, ChainsLinked;
    var p := Publish(current, target, target.rollover.value);
    PayloadFacts(s, current.executionID, current.revision);
    AnchorFacts(s, current, current.executionID);
    FreshFacts(current, target);
    HeadFacts(s, current.executionID);
    NewLink(s, current, target);
    hide FreshTarget;
    PairLinked(s, p);
  }

  /** Adding one sound link between two executions keeps all chains linked. */
  lemma PairLinked(s: Store, p: Publication)
    requires ChainsLinked(s) && p.transferred.executionID in s.heads
    requires p.transferred.executionID !in s.outgoing && p.created.executionID !in s.heads
    requires p.transferred.revision == p.receipt.sourceRevision
    requires p.receipt.lineage.targetID == p.created.executionID
    requires p.receipt.lineage.source.executionID == p.transferred.executionID
    requires LinkSound(PublishPair(s, p), p.transferred.executionID, p.receipt)
    ensures ChainsLinked(PublishPair(s, p))
  {
    hide SourceLinked, TargetLinked, Put, LinkSound;
    forall a ensures SourceLinked(PublishPair(s, p), a) && TargetLinked(PublishPair(s, p), a) {
      PairLink(s, p, a);
    }
  }

  lemma PairLink(s: Store, p: Publication, a: string)
    requires SourceLinked(s, a) && TargetLinked(s, a) && p.transferred.executionID in s.heads
    requires p.transferred.executionID !in s.outgoing && p.created.executionID !in s.heads
    requires p.transferred.revision == p.receipt.sourceRevision
    requires p.receipt.lineage.targetID == p.created.executionID
    requires p.receipt.lineage.source.executionID == p.transferred.executionID
    requires LinkSound(PublishPair(s, p), p.transferred.executionID, p.receipt)
    requires TargetLinked(s, p.created.executionID)
    requires forall b :: TargetLinked(s, b)
    ensures SourceLinked(PublishPair(s, p), a) && TargetLinked(PublishPair(s, p), a)
  {
    hide ValidReceipt, Put;
    var t := PublishPair(s, p);
    if a in s.outgoing {
      assert TargetLinked(s, s.outgoing[a].lineage.targetID);
      OldLink(s, t, a);
      hide LinkSound;
    }
    hide LinkSound;
  }

  lemma NewLink(s: Store, current: Envelope, target: Envelope)
    requires Publishable(s, current, target) && IntegrityHolds(current, current.executionID, current.revision)
    requires current.rollover == LineageOf(Lookup(s.incoming, current.executionID))
    ensures var p := Publish(current, target, target.rollover.value);
      && LinkSound(PublishPair(s, p), current.executionID, p.receipt)
      && p.receipt.lineage.targetID == p.created.executionID && p.transferred.revision == p.receipt.sourceRevision
      && p.receipt.lineage.source.executionID == current.executionID == p.transferred.executionID
  {
  }

  lemma OldLink(s: Store, t: Store, a: string)
    requires a in s.outgoing && LinkSound(s, a, s.outgoing[a])
    requires Lookup(t.outgoing, a) == Some(s.outgoing[a]) && Lookup(t.incoming, a) == Lookup(s.incoming, a)
    ensures LinkSound(t, a, t.outgoing[a])
  {
    hide ValidReceipt;
  }

  // ---------------------------------------------------------------- retention

  lemma RetainKeeps(s: Store, now: Time, q: RetentionRequest)
    requires StoreInv(s) && Retain(s, now, q).Ok?
    ensures var t := Retain(s, now, q).value.0;
      && StoreInv(t) && StoreExtends(s, t) && t == s.(history := t.history)
      && (forall id, r: uint64 :: id != q.executionID ==> Payload(t, id, r) == Payload(s, id, r))
      && (forall id, r: uint64 :: Payload(t, id, r) == Payload(s, id, r) || Payload(t, id, r).None?)
      && (forall r: uint64 :: Retained(q, r) ==> Payload(t, q.executionID, r) == Payload(s, q.executionID, r))
      && (Payload(s, q.executionID, q.revision).Some? ==>
            forall r: uint64 :: !Retained(q, r) ==> Payload(t, q.executionID, r).None?)
  {
    hide Retained, RetainError, LeasesFenced, ChainsLinked, PayloadSound;
    var t := Retain(s, now, q).value.0;
    RetainedPayloads(s, now, q);
    forall id, r: uint64 ensures PayloadSound(t, id, r) {
      SamePayload(s, t, id, r);
    }
    LeasesKept(s, t);
    LinksKept(s, t);
  }

  lemma RetainedPayloads(s: Store, now: Time, q: RetentionRequest)
    requires HistoryConsistent(s) && Retain(s, now, q).Ok?
    ensures var t := Retain(s, now, q).value.0;
      && t == s.(history := t.history) && t.history.Keys == s.history.Keys && StoreExtends(s, t)
      && (forall id, r: uint64 :: id != q.executionID ==> Payload(t, id, r) == Payload(s, id, r))
      && (forall id, r: uint64 :: Payload(t, id, r) == Payload(s, id, r) || Payload(t, id, r).None?)
      && (forall r: uint64 :: Retained(q, r) ==> Payload(t, q.executionID, r) == Payload(s, q.executionID, r))
      && (Payload(s, q.executionID, q.revision).Some? ==>
            forall r: uint64 :: !Retained(q, r) ==> Payload(t, q.executionID, r).None?)
  {
    hide Retained, RetainError, PayloadSound;
    var t := Retain(s, now, q).value.0;
    HeadFacts(s, q.executionID);
    RetainNeedsHead(s, now, q);
    if t == s {
      StoreExtendsSelf(s);
    } else {
      KeptPayloads(s, t, q);
    }
  }

  lemma RetainNeedsHead(s: Store, now: Time, q: RetentionRequest)
    requires RetainError(s, now, q).None?
    ensures Head(s, q.executionID) == q.revision != 0
  {
    hide BoundaryError, ProtectedAvailable;
  }

  lemma KeptPayloads(s: Store, t: Store, q: RetentionRequest)
    requires q.executionID in s.history && t == s.(history := s.history[q.executionID := Kept(s, q)])
    ensures t.history.Keys == s.history.Keys && StoreExtends(s, t)
    ensures forall id, r: uint64 :: id != q.executionID ==> Payload(t, id, r) == Payload(s, id, r)
    ensures forall id, r: uint64 :: Payload(t, id, r) == Payload(s, id, r) || Payload(t, id, r).None?
    ensures forall r: uint64 :: Retained(q, r) ==> Payload(t, q.executionID, r) == Payload(s, q.executionID, r)
    ensures forall r: uint64 :: !Retained(q, r) ==> Payload(t, q.executionID, r).None?
  {
    hide Retained;
  }
}
