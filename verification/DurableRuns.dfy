/** Whole runs of the runtime: any number of sessions over one store, with
    crashes, lease expiry and takeover, lost replies, rollover and retention. */
module DurableRuns {
  import opened Basics
  import opened Envelopes
  import opened Lifecycle
  import opened StoreModel
  import opened StoreSteps
  import opened AggregateInvariant
  import opened RuntimeOps
  import opened Transfers
  import Q = Retention
  import A = ActivityRecords
  import S = ActivitySteps
  import AO = ActivityOps
  import C = ChildRecords

  /** One lease holder: its last acknowledged envelope, the attempts it has
      dispatched and not finished, and the activities it is reconciling. */
  datatype Session = Session(
    lease: Lease, envelope: Option<Envelope>, pending: set<(Digest, int)>, reconciling: set<Digest>)

  /** A dispatch to the host, with the acknowledged record that permitted it. */
  datatype Dispatch = Dispatch(executionID: string, revision: uint64, record: A.ActivityRecord)

  datatype Launch = Launch(executionID: string, revision: uint64, group: Digest, childID: string)

  datatype World = World(
    store: Store, now: Time, sessions: map<nat, Session>, dispatches: seq<Dispatch>, launches: seq<Launch>)

  /** `acked` is false when a commit took effect but its reply was lost. */
  datatype Move =
    | Tick(now: Time)
    | Attach(sid: nat, id: string, owner: string, ttl: int)
    | Open(sid: nat)
    | Create(sid: nat, first: Envelope, acked: bool)
    | Perform(sid: nat, op: Op, acked: bool)
    | Probe(sid: nat, request: S.ActivityRequest)
    | KeepAlive(sid: nat, ttl: int)
    | Detach(sid: nat)
    | Crash(sid: nat)
    | RollOver(sid: nat, target: Envelope, sizes: Sizes)
    | Maintain(retention: Q.RetentionRequest)

  const START := World(EMPTY, 0, map[], [], [])

  // ------------------------------------------------------------ the transition

  /** A session finishes only what it started, the run loop ends with its
      terminal, and an operator decides in a session without unfinished
      dispatches. Node code may call at any time. */
  predicate Allowed(ss: Session, e: Envelope, op: Op) {
    && HostSane(op) && (LoopOp(op) ==> e.terminal.None?)
    && (OperatorOp(op) ==> ss.pending == {} && ss.reconciling == {})
    && (match op
        case FinishDispatch(id, attempt, _, _, _) => (id, attempt) in ss.pending
        case FinishReconcile(id, _) => id in ss.reconciling
        case _ => true)
  }

  function AttemptOf(c: Envelope, id: Digest): int {
    if id in c.journal then |c.journal[id].attempts| else 0
  }

  /** The session after the acknowledgement of an operation; one that was opened
      for a single decision knows no envelope afterwards. */
  function Acknowledge(ss: Session, e: Envelope, op: Op, c: Envelope): Session {
    var known := ss.(envelope := if OneShot(op) then None else Some(c));
    match op
    case BeginActivity(q, _, _) =>
      known.(pending := ss.pending + {(BoundActivity(e, q.key), AttemptOf(c, BoundActivity(e, q.key)))})
    case FinishDispatch(id, attempt, _, _, _) => known.(pending := ss.pending - {(id, attempt)})
    case _ => known
  }

  /** The dispatches an acknowledgement permits. */
  function Dispatched(e: Envelope, op: Op, c: Envelope): seq<Dispatch> {
    if op.BeginActivity? && BoundActivity(e, op.request.key) in c.journal then
      [Dispatch(c.executionID, c.revision, c.journal[BoundActivity(e, op.request.key)])]
    else []
  }

  function Launches(op: Op, c: Envelope): seq<Launch> {
    if op.RunChild? then [Launch(c.executionID, c.revision, op.group, op.childID)] else []
  }

  ghost function Performed(w: World, ss: Session, e: Envelope, sid: nat, op: Op, acked: bool): World {
    match Apply(e, op, ss.lease.incarnation)
    case Write(t) =>
      (match Commit(w.store, w.now, e.revision, ss.lease, t)
       case Err(_) => w
       case Ok(x) =>
         if !acked then w.(store := x.0)
         else w.(store := x.0, sessions := w.sessions[sid := Acknowledge(ss, e, op, x.1)],
                 dispatches := w.dispatches + Dispatched(e, op, x.1), launches := w.launches + Launches(op, x.1)))
    case _ => w
  }

  ghost function Created(w: World, ss: Session, sid: nat, first: Envelope, acked: bool): World {
    match Commit(w.store, w.now, 0, ss.lease, first)
    case Err(_) => w
    case Ok(x) =>
      if acked then w.(store := x.0, sessions := w.sessions[sid := ss.(envelope := Some(x.1))]) else w.(store := x.0)
  }

  predicate Reconcilable(e: Envelope, q: S.ActivityRequest) {
    var id := BoundActivity(e, q.key);
    id in e.journal && AO.Matches(e.journal[id], q) && e.journal[id].state.Unknown?
  }

  function ReferenceOf(e: Envelope): Reference {
    Reference(e.executionID, e.revision, e.digest)
  }

  /** One move of the world; a move that is not possible changes nothing. */
  ghost function Moved(w: World, m: Move): World {
    match m
    case Tick(now) => w.(now := now)
    case Maintain(q) => (match Retain(w.store, w.now, q) case Err(_) => w case Ok(x) => w.(store := x.0))
    case Attach(sid, id, owner, ttl) =>
      if sid in w.sessions then w
      else (match Acquire(w.store, w.now, id, owner, ttl)
            case Err(_) => w
            case Ok(x) => w.(store := x.0, sessions := w.sessions[sid := Session(x.1, None, {}, {})]))
    case Open(sid) => OnSession(w, sid, m)
    case Create(sid, _, _) => OnSession(w, sid, m)
    case Perform(sid, _, _) => OnSession(w, sid, m)
    case Probe(sid, _) => OnSession(w, sid, m)
    case KeepAlive(sid, _) => OnSession(w, sid, m)
    case Detach(sid) => OnSession(w, sid, m)
    case Crash(sid) => OnSession(w, sid, m)
    case RollOver(sid, _, _) => OnSession(w, sid, m)
  }

  ghost function OnSession(w: World, sid: nat, m: Move): World {
    match SessionAt(w, sid)
    case None => w
    case Some(ss) =>
      match ss.envelope
      case None => Unopened(w, ss, sid, m)
      case Some(e) => Opened(w, ss, e, sid, m)
  }

  function SessionAt(w: World, sid: nat): Option<Session> {
    if sid in w.sessions then Some(w.sessions[sid]) else None
  }

  /** Moves of a session that has not read or written its execution yet. */
  ghost function Unopened(w: World, ss: Session, sid: nat, m: Move): World {
    match m
    case Open(_) =>
      (match Load(w.store, ss.lease.executionID)
       case Err(_) => w
       case Ok(e) =>
         if CollectionsValid(e) then w.(sessions := w.sessions[sid := ss.(envelope := Some(e))]) else w)
    case Create(_, first, acked) => if Fresh(first) then Created(w, ss, sid, first, acked) else w
    case _ => Leasing(w, ss, sid, m)
  }

  ghost function Opened(w: World, ss: Session, e: Envelope, sid: nat, m: Move): World {
    match m
    case Perform(_, op, acked) => if Allowed(ss, e, op) then Performed(w, ss, e, sid, op, acked) else w
    case Probe(_, q) =>
      if !Reconcilable(e, q) then w
      else w.(sessions := w.sessions[sid := ss.(reconciling := ss.reconciling + {BoundActivity(e, q.key)})])
    case RollOver(_, target, sizes) =>
      (match CommitRollover(w.store, w.now, ss.lease, ReferenceOf(e), target, sizes)
       case Err(_) => w
       case Ok(x) => w.(store := x.0))
    case _ => Leasing(w, ss, sid, m)
  }

  function Leasing(w: World, ss: Session, sid: nat, m: Move): World {
    match m
    case KeepAlive(_, ttl) =>
      (match Renew(w.store, w.now, ss.lease, ttl) case Err(_) => w case Ok(x) => w.(store := x.0))
    case Detach(_) =>
      (match Release(w.store, ss.lease)
       case Err(_) => w.(sessions := w.sessions - {sid})
       case Ok(s) => w.(store := s, sessions := w.sessions - {sid}))
    case Crash(_) => w.(sessions := w.sessions - {sid})
    case _ => w
  }

  ghost function Run(moves: seq<Move>): World {
    if moves == [] then START else Moved(Run(moves[..|moves| - 1]), moves[|moves| - 1])
  }

  // ------------------------------------------------------------- the invariant

  /** Every stored revision keeps the core invariant, and only a head may fail
      to load. */
  ghost predicate HistorySound(s: Store) {
    forall id, r: uint64 :: Payload(s, id, r).Some? ==>
      CoreInv(Payload(s, id, r).value) && (r < Head(s, id) ==> Current(Payload(s, id, r).value))
  }

  ghost predicate HistoryOrdered(s: Store) {
    forall id, q: uint64, r: uint64 :: q < r && Payload(s, id, q).Some? && Payload(s, id, r).Some? ==>
      Extends(Payload(s, id, q).value, Payload(s, id, r).value)
  }

  /** A session's envelope is a committed one, and its unfinished work is what
      that envelope shows. */
  ghost predicate SessionSound(s: Store, ss: Session) {
    && ss.lease.incarnation != 0
    && (ss.envelope.None? ==> ss.pending == {} && ss.reconciling == {})
    && (ss.envelope.Some? ==>
          && EnvInv(ss.envelope.value) && ss.envelope.value.executionID == ss.lease.executionID
          && Recalls(s, ss.envelope.value)
          && (forall p :: p in ss.pending ==> StillRunning(ss.envelope.value, p.0, p.1, ss.lease.incarnation))
          && (forall k :: k in ss.reconciling ==> StillUnknown(ss.envelope.value, k)))
  }

  /** The envelope is, or was until retention, a stored revision. */
  predicate Recalls(s: Store, e: Envelope) {
    && e.revision <= Head(s, e.executionID)
    && (Payload(s, e.executionID, e.revision).Some? ==> Payload(s, e.executionID, e.revision) == Some(e))
  }

  /** The record of a dispatch was committed, running, before the dispatch, and
      the head only extends it. */
  predicate DispatchSound(s: Store, d: Dispatch) {
    && A.ValidRecord(d.record) && d.record.state.Running? && d.record.attempts != []
    && 0 < d.revision <= Head(s, d.executionID)
    && (match Payload(s, d.executionID, d.revision)
        case None => true
        case Some(e) => d.record.identity in e.journal && e.journal[d.record.identity] == d.record)
    && (match Payload(s, d.executionID, Head(s, d.executionID))
        case None => true
        case Some(h) => d.record.identity in h.journal && S.RecordExtends(d.record, h.journal[d.record.identity]))
  }

  predicate SameActivity(a: Dispatch, b: Dispatch) {
    a.executionID == b.executionID && a.record.identity == b.record.identity
  }

  /** Attempts of one activity are dispatched in strictly increasing order, and
      a later record extends the earlier one. */
  predicate DispatchesOrdered(ds: seq<Dispatch>) {
    forall i, j :: 0 <= i < j < |ds| && SameActivity(ds[i], ds[j]) ==> Supersedes(ds[j], ds[i])
  }

  predicate Supersedes(b: Dispatch, a: Dispatch) {
    |a.record.attempts| < |b.record.attempts| && S.RecordExtends(a.record, b.record)
  }

  predicate ChildLaunched(e: Envelope, k: Digest, childID: string) {
    k in e.children && exists i :: 0 <= i < |e.children[k].children| && IsLaunched(e.children[k].children[i], childID)
  }

  predicate IsLaunched(c: C.ChildRecord, childID: string) {
    c.spec.id == childID && C.Launched(c)
  }

  predicate LaunchSound(s: Store, l: Launch) {
    && 0 < l.revision <= Head(s, l.executionID)
    && (match Payload(s, l.executionID, l.revision)
        case None => true
        case Some(e) => ChildLaunched(e, l.group, l.childID))
    && (match Payload(s, l.executionID, Head(s, l.executionID))
        case None => true
        case Some(h) => ChildLaunched(h, l.group, l.childID))
  }

  predicate LaunchesDistinct(ls: seq<Launch>) {
    forall i, j :: 0 <= i < j < |ls| && ls[i].executionID == ls[j].executionID ==>
      ls[i].group != ls[j].group || ls[i].childID != ls[j].childID
  }

  predicate DispatchesSound(s: Store, ds: seq<Dispatch>) {
    forall i :: 0 <= i < |ds| ==> DispatchSound(s, ds[i])
  }

  predicate LaunchesSound(s: Store, ls: seq<Launch>) {
    forall i :: 0 <= i < |ls| ==> LaunchSound(s, ls[i])
  }

  ghost predicate TracesSound(w: World) {
    && DispatchesSound(w.store, w.dispatches) && DispatchesOrdered(w.dispatches)
    && LaunchesSound(w.store, w.launches) && LaunchesDistinct(w.launches)
  }

  ghost predicate WorldInv(w: World) {
    && StoreInv(w.store) && HistorySound(w.store) && HistoryOrdered(w.store)
    && (forall sid :: sid in w.sessions ==> SessionSound(w.store, w.sessions[sid]))
    && TracesSound(w)
  }

  // ------------------------------------------ how the store may change in a move

  /** A head stays, or it is replaced by the next revision, which extends it. */
  ghost predicate HeadsExtend(s: Store, t: Store) {
    forall id :: HeadExtends(s, t, id)
  }

  predicate HeadExtends(s: Store, t: Store, id: string) {
    if Head(t, id) == Head(s, id) then
      Payload(t, id, Head(t, id)).Some? ==> Payload(t, id, Head(t, id)) == Payload(s, id, Head(s, id))
    else
      && Head(s, id) < Head(t, id) == Increment(Head(s, id)) && Payload(t, id, Head(t, id)).Some?
      && (Head(s, id) > 0 ==> Precedes(s, Payload(t, id, Head(t, id)).value, id))
  }

  /** The stored head loads and is extended by `c`. */
  predicate Precedes(s: Store, c: Envelope, id: string) {
    && Payload(s, id, Head(s, id)).Some? && Current(Payload(s, id, Head(s, id)).value)
    && Extends(Payload(s, id, Head(s, id)).value, c)
  }

  ghost predicate StoreMoves(s: Store, t: Store) {
    && StoreInv(t) && HistorySound(t) && HistoryOrdered(t) && StoreExtends(s, t) && HeadsExtend(s, t)
  }

  lemma StoreStays(s: Store)
    requires StoreInv(s) && HistorySound(s) && HistoryOrdered(s)
    ensures StoreMoves(s, s)
  {
    hide StoreInv, HistorySound, HistoryOrdered, StoreExtends;
    StoreExtendsSelf(s);
  }

  /** Changes that add no payload, such as leases and retention. */
  lemma StoreShrinks(s: Store, t: Store)
    requires HistorySound(s) && HistoryOrdered(s) && StoreInv(t) && StoreExtends(s, t)
    requires forall id :: Head(t, id) == Head(s, id)
    requires forall id, r: uint64 :: Payload(t, id, r) == Payload(s, id, r) || Payload(t, id, r).None?
    ensures StoreMoves(s, t)
  {
    hide StoreInv, StoreExtends, CoreInv, Extends, Current;
  }

  /** A commit whose payload extends the head it replaces. */
  lemma StoreGrows(s: Store, t: Store, c: Envelope)
    requires StoreInv(s) && HistorySound(s) && HistoryOrdered(s) && StoreInv(t) && StoreExtends(s, t)
    requires Written(s, t, c) && CoreInv(c) && Head(s, c.executionID) < c.revision == Increment(Head(s, c.executionID))
    requires Head(s, c.executionID) > 0 ==> Precedes(s, c, c.executionID)
    ensures StoreMoves(s, t)
  {
    hide StoreInv, StoreExtends, CoreInv, Extends, HistoryOrdered, HistorySound, Written, Precedes, HeadsExtend;
    Ordered(s, t, c);
    assert HistorySound(t) by {
      WrittenSound(s, t, c);
    }
    WrittenHeads(s, t, c);
  }

  lemma WrittenSound(s: Store, t: Store, c: Envelope)
    requires StoreInv(s) && HistorySound(s) && Written(s, t, c) && CoreInv(c) && Head(s, c.executionID) < c.revision
    requires Head(s, c.executionID) > 0 ==> Precedes(s, c, c.executionID)
    ensures HistorySound(t)
  {
    hide CoreInv, Current, Extends, StoreInv;
    forall id, r: uint64 | Payload(t, id, r).Some?
      ensures CoreInv(Payload(t, id, r).value) && (r < Head(t, id) ==> Current(Payload(t, id, r).value))
    {
      if id != c.executionID || r != c.revision {
        assert Payload(t, id, r) == Payload(s, id, r);
        PayloadFacts(s, id, r);
      }
    }
  }

  lemma WrittenHeads(s: Store, t: Store, c: Envelope)
    requires Written(s, t, c) && Head(s, c.executionID) < c.revision == Increment(Head(s, c.executionID))
    requires Head(s, c.executionID) > 0 ==> Precedes(s, c, c.executionID)
    ensures HeadsExtend(s, t)
  {
    hide Precedes;
    forall id ensures HeadExtends(s, t, id) {
      if id != c.executionID {
        assert Head(t, id) == Head(s, id) && Payload(t, id, Head(s, id)) == Payload(s, id, Head(s, id));
      }
    }
  }

  lemma Ordered(s: Store, t: Store, c: Envelope)
    requires StoreInv(s) && HistoryOrdered(s) && Written(s, t, c) && Head(s, c.executionID) < c.revision
    requires Head(s, c.executionID) > 0 ==> Precedes(s, c, c.executionID)
    ensures HistoryOrdered(t)
  {
    hide Extends, StoreInv, Current;
    forall id, q: uint64, r: uint64 | q < r && Payload(t, id, q).Some? && Payload(t, id, r).Some?
      ensures Extends(Payload(t, id, q).value, Payload(t, id, r).value)
    {
      if id == c.executionID && q == c.revision {
        PayloadFacts(s, id, r);
        assert false;
      } else if id == c.executionID && r == c.revision {
        PayloadFacts(s, id, q);
        var h := Payload(s, id, Head(s, id)).value;
        if q < Head(s, id) {
          assert Extends(Payload(s, id, q).value, h);
          ExtendsTransitive(Payload(s, id, q).value, h, c);
        }
      } else {
        assert Payload(t, id, q) == Payload(s, id, q) && Payload(t, id, r) == Payload(s, id, r);
      }
    }
  }

  // ------------------------------------------------- what survives any change

  lemma RecallKept(s: Store, t: Store, e: Envelope)
    requires Recalls(s, e) && StoreExtends(s, t)
    ensures Recalls(t, e)
  {
    hide FencesGrow, AnchorsStay;
  }

  lemma SessionKept(s: Store, t: Store, ss: Session)
    requires SessionSound(s, ss) && StoreExtends(s, t)
    ensures SessionSound(t, ss)
  {
    hide EnvInv, StoreExtends, Recalls;
    if ss.envelope.Some? {
      RecallKept(s, t, ss.envelope.value);
    }
  }

  lemma DispatchKept(s: Store, t: Store, d: Dispatch)
    requires DispatchSound(s, d) && StoreExtends(s, t) && HeadsExtend(s, t)
    ensures DispatchSound(t, d)
  {
    hide A.ValidRecord, FencesGrow, AnchorsStay, Extends, S.RecordExtends, Current;
    var id := d.executionID;
    assert HeadExtends(s, t, id);
    assert Payload(t, id, d.revision).Some? ==> Payload(t, id, d.revision) == Payload(s, id, d.revision);
    hide PayloadsStay;
    if Payload(t, id, Head(t, id)).Some? && Payload(t, id, Head(t, id)) != Payload(s, id, Head(s, id)) {
      RecordLater(Payload(s, id, Head(s, id)).value, Payload(t, id, Head(t, id)).value, d.record);
    }
  }

  lemma RecordLater(e: Envelope, f: Envelope, r: A.ActivityRecord)
    requires r.identity in e.journal && S.RecordExtends(r, e.journal[r.identity]) && Extends(e, f)
    ensures r.identity in f.journal && S.RecordExtends(r, f.journal[r.identity])
  {
    hide ChildrenExtend, WaitsExtend, TerminalExtends, S.RecordExtends;
    S.RecordExtendsTransitive(r, e.journal[r.identity], f.journal[r.identity]);
  }

  lemma LaunchKept(s: Store, t: Store, l: Launch)
    requires LaunchSound(s, l) && StoreExtends(s, t) && HeadsExtend(s, t)
    ensures LaunchSound(t, l)
  {
    hide FencesGrow, AnchorsStay, ChildLaunched, Extends, Current;
    var id := l.executionID;
    assert HeadExtends(s, t, id);
    assert Payload(t, id, l.revision).Some? ==> Payload(t, id, l.revision) == Payload(s, id, l.revision);
    hide PayloadsStay;
    if Payload(t, id, Head(t, id)).Some? && Payload(t, id, Head(t, id)) != Payload(s, id, Head(s, id)) {
      StaysLaunched(Payload(s, id, Head(s, id)).value, Payload(t, id, Head(t, id)).value, l.group, l.childID);
    }
  }

  lemma StaysLaunched(e: Envelope, f: Envelope, k: Digest, childID: string)
    requires ChildLaunched(e, k, childID) && Extends(e, f)
    ensures ChildLaunched(f, k, childID)
  {
    hide JournalExtends, WaitsExtend, TerminalExtends;
    var i :| 0 <= i < |e.children[k].children| && IsLaunched(e.children[k].children[i], childID);
    assert IsLaunched(f.children[k].children[i], childID);
  }
}
