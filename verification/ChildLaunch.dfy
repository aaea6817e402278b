/** The bounded launch loop of one child group. Children finish in any order; the
    environment decides when, and whether the loop is canceled or abandoned. */
module ChildLaunch {
  import opened Basics
  import opened ChildRecords

  /** What ends a wait of the loop. `slot` picks the finished child among those in
      flight; `ok` is whether its outcome was persisted and known, `failed`
      whether the group then shows a failed child. */
  datatype Wake = CancelSignal | ContextDone | Finished(slot: nat, ok: bool, failed: bool)

  /** One turn of the loop: the cancellation poll at its top and the later wake. */
  datatype Turn = Turn(canceled: bool, wake: Wake)

  datatype LaunchEvent = Began(id: string) | Received(id: string)

  datatype Ending = Stopped | Refused(id: string) | Abandoned | LaunchFailed | AllReceived

  /** Children begun by this loop whose completion it has not received. They
      include every child of the loop that is still running. */
  function InFlight(trace: seq<LaunchEvent>): set<string> {
    if trace == [] then {}
    else match trace[|trace| - 1]
      case Began(id) => InFlight(trace[..|trace| - 1]) + {id}
      case Received(id) => InFlight(trace[..|trace| - 1]) - {id}
  }

  /** The children begun, in order. */
  function Begun(trace: seq<LaunchEvent>): seq<string> {
    if trace == [] then []
    else match trace[|trace| - 1]
      case Began(id) => Begun(trace[..|trace| - 1]) + [id]
      case Received(_) => Begun(trace[..|trace| - 1])
  }

  predicate Bounded(trace: seq<LaunchEvent>, limit: int) {
    forall k :: 0 <= k <= |trace| ==> |InFlight(trace[..k])| <= limit
  }

  predicate Distinct(ids: seq<string>) {
    forall i, j :: 0 <= i < j < |ids| ==> ids[i] != ids[j]
  }

  function Members(ids: seq<string>): set<string> {
    set id | id in ids
  }

  function Launchable(children: seq<ChildRecord>): seq<string> {
    if children == [] then []
    else if Launched(children[|children| - 1]) then Launchable(children[..|children| - 1])
    else Launchable(children[..|children| - 1]) + [children[|children| - 1].spec.id]
  }

  /** The children a loop may start: none once cancellation was requested. */
  method LaunchableChildIDs(g: ChildGroup) returns (ids: seq<string>)
    ensures ids == if g.cancelRequested then [] else Launchable(g.children)
  {
    ids := [];
    if g.cancelRequested {
      return;
    }
    for i := 0 to |g.children|
      invariant ids == Launchable(g.children[..i])
    {
      assert g.children[..i + 1][..i] == g.children[..i];
      if g.children[i].state.Planned? || g.children[i].state.Queued? {
        ids := ids + [g.children[i].spec.id];
      }
    }
    assert g.children[..|g.children|] == g.children;
  }

  predicate MayLaunch(children: seq<ChildRecord>, id: string) {
    exists i :: 0 <= i < |children| && children[i].spec.id == id && !Launched(children[i])
  }

  lemma MayLaunchLast(children: seq<ChildRecord>, id: string)
    requires children != []
    ensures var rest, last := children[..|children| - 1], children[|children| - 1];
      MayLaunch(children, id) <==> MayLaunch(rest, id) || (last.spec.id == id && !Launched(last))
  {
    hide Launched;
    var rest, last := children[..|children| - 1], children[|children| - 1];
    assert forall i :: 0 <= i < |rest| ==> rest[i] == children[i];
    if MayLaunch(rest, id) {
      var i :| 0 <= i < |rest| && rest[i].spec.id == id && !Launched(rest[i]);
      assert children[i].spec.id == id && !Launched(children[i]);
    }
    if MayLaunch(children, id) {
      var i :| 0 <= i < |children| && children[i].spec.id == id && !Launched(children[i]);
      assert i < |rest| ==> rest[i].spec.id == id && !Launched(rest[i]);
    }
  }

  /** Exactly the children not launched yet, each once. */
  lemma {:induction false} LaunchableAre(children: seq<ChildRecord>, id: string)
    requires forall i, j :: 0 <= i < j < |children| ==> children[i].spec.id != children[j].spec.id
    ensures Distinct(Launchable(children)) && (id in Launchable(children) <==> MayLaunch(children, id))
  {
    hide Launched;
    if children != [] {
      var rest, last := children[..|children| - 1], children[|children| - 1];
      assert forall i :: 0 <= i < |rest| ==> rest[i] == children[i];
      LaunchableAre(rest, id);
      LaunchableAre(rest, last.spec.id);
      MayLaunchLast(children, id);
    }
  }

  lemma BeginExtends(trace: seq<LaunchEvent>, id: string, limit: int)
    requires Bounded(trace, limit) && |InFlight(trace)| < limit && id !in InFlight(trace)
    ensures var t := trace + [Began(id)];
      Bounded(t, limit) && InFlight(t) == InFlight(trace) + {id} && |InFlight(t)| == |InFlight(trace)| + 1
      && Begun(t) == Begun(trace) + [id]
  {
    var t := trace + [Began(id)];
    assert t[..|t| - 1] == trace;
    forall k | 0 <= k <= |t| ensures |InFlight(t[..k])| <= limit {
      if k < |t| {
        assert t[..k] == trace[..k];
      } else {
        assert t[..k] == t;
      }
    }
  }

  lemma ReceiveExtends(trace: seq<LaunchEvent>, id: string, limit: int)
    requires Bounded(trace, limit) && id in InFlight(trace)
    ensures var t := trace + [Received(id)];
      Bounded(t, limit) && InFlight(t) == InFlight(trace) - {id} && |InFlight(t)| == |InFlight(trace)| - 1
      && Begun(t) == Begun(trace)
  {
    var t := trace + [Received(id)];
    assert t[..|t| - 1] == trace;
    assert trace[..|trace|] == trace;
    forall k | 0 <= k <= |t| ensures |InFlight(t[..k])| <= limit {
      if k < |t| {
        assert t[..k] == trace[..k];
      } else {
        assert t[..k] == t;
      }
    }
  }

  /** The loop's variables against its trace. */
  predicate LoopState(ids: seq<string>, limit: int, next: int, flying: seq<string>, trace: seq<LaunchEvent>) {
    && 0 <= next <= |ids| && |flying| == |InFlight(trace)| <= limit
    && Bounded(trace, limit) && Begun(trace) == ids[..next]
    && Distinct(flying) && InFlight(trace) == Members(flying) <= Members(ids[..next])
  }

  lemma LoopStarts(ids: seq<string>, limit: int)
    requires limit > 0
    ensures LoopState(ids, limit, 0, [], [])
  {
  }

  lemma LoopBegins(ids: seq<string>, limit: int, next: int, flying: seq<string>, trace: seq<LaunchEvent>)
    requires Distinct(ids) && LoopState(ids, limit, next, flying, trace) && |flying| < limit && next < |ids|
    ensures LoopState(ids, limit, next + 1, flying + [ids[next]], trace + [Began(ids[next])])
  {
    var id := ids[next];
    assert ids[..next + 1] == ids[..next] + [id];
    assert id !in ids[..next];
    assert id !in Members(flying);
    BeginExtends(trace, id, limit);
    hide InFlight, Begun, Bounded;
    assert Members(flying + [id]) == Members(flying) + {id};
    assert Members(ids[..next + 1]) == Members(ids[..next]) + {id};
    assert Distinct(flying + [id]) by {
      assert id !in flying;
    }
  }

  lemma LoopReceives(
    ids: seq<string>, limit: int, next: int, flying: seq<string>, trace: seq<LaunchEvent>, s: nat)
    requires LoopState(ids, limit, next, flying, trace) && s < |flying|
    ensures LoopState(ids, limit, next, flying[..s] + flying[s + 1..], trace + [Received(flying[s])])
  {
    ReceiveExtends(trace, flying[s], limit);
    OneFewer(flying, s);
    hide InFlight, Begun, Bounded;
  }

  lemma LoopEnds(ids: seq<string>, limit: int, next: int, flying: seq<string>, trace: seq<LaunchEvent>)
    requires LoopState(ids, limit, next, flying, trace)
    ensures Bounded(trace, limit) && Begun(trace) == ids[..next] && |flying| <= limit && 0 <= next <= |ids|
    ensures flying == [] ==> InFlight(trace) == {}
  {
  }

  /** The source's loop with its `next` and `active` counters. However the
      children finish, the loop never has more than the allowed number of its
      children running, begins each launchable child at most once and in order,
      and reports success only after all of them were begun and received. */
  method LaunchChildGroup(
    ids: seq<string>, maxConcurrency: int, failFast: bool, refused: set<string>, turns: seq<Turn>)
    returns (trace: seq<LaunchEvent>, ending: Ending)
    requires maxConcurrency > 0 && Distinct(ids)
    ensures Bounded(trace, maxConcurrency)
    ensures Begun(trace) <= ids
    ensures ending.AllReceived? ==> Begun(trace) == ids && InFlight(trace) == {}
    ensures ending.Refused? ==> ending.id in refused && Begun(trace) + [ending.id] <= ids
  {
    hide LoopState, Distinct, Bounded, InFlight, Begun;
    trace := [];
    var next, active, turn := 0, 0, 0;
    var flying: seq<string> := [];
    LoopStarts(ids, maxConcurrency);
    while true
      invariant LoopState(ids, maxConcurrency, next, flying, trace) && active == |flying| && 0 <= next <= |ids|
      decreases 2 * (|ids| - next) + active
    {
      LoopEnds(ids, maxConcurrency, next, flying, trace);
      if turn < |turns| && turns[turn].canceled {
        return trace, Stopped;
      }
      ghost var start := 2 * (|ids| - next) + active;
      while active < maxConcurrency && next < |ids|
        invariant LoopState(ids, maxConcurrency, next, flying, trace) && active == |flying| && 0 <= next <= |ids|
        invariant 2 * (|ids| - next) + active <= start
        decreases |ids| - next
      {
        var id := ids[next];
        if id in refused {
          LoopEnds(ids, maxConcurrency, next, flying, trace);
          assert ids[..next] + [id] == ids[..next + 1];
          return trace, Refused(id);
        }
        LoopBegins(ids, maxConcurrency, next, flying, trace);
        next := next + 1;
        active := active + 1;
        flying := flying + [id];
        trace := trace + [Began(id)];
      }
      LoopEnds(ids, maxConcurrency, next, flying, trace);
      if active == 0 {
        assert ids[..next] == ids;
        return trace, AllReceived;
      }
      if turn >= |turns| {
        return trace, Abandoned;
      }
      match turns[turn].wake {
        case CancelSignal => return trace, Stopped;
        case ContextDone => return trace, Abandoned;
        case Finished(slot, ok, failed) =>
          var s := slot % |flying|;
          LoopReceives(ids, maxConcurrency, next, flying, trace, s);
          active := active - 1;
          trace := trace + [Received(flying[s])];
          flying := flying[..s] + flying[s + 1..];
          if !ok || (failFast && failed) {
            LoopEnds(ids, maxConcurrency, next, flying, trace);
            return trace, LaunchFailed;
          }
      }
      turn := turn + 1;
    }
  }

  lemma OneFewer(flying: seq<string>, s: nat)
    requires Distinct(flying) && s < |flying|
    ensures var others := flying[..s] + flying[s + 1..];
      && Distinct(others) && |others| == |flying| - 1
      && Members(others) == Members(flying) - {flying[s]}
  {
    var others := flying[..s] + flying[s + 1..];
    assert forall i :: 0 <= i < |others| ==> others[i] == if i < s then flying[i] else flying[i + 1];
    forall i | 0 <= i < |flying| && i != s ensures flying[i] in others {
      assert flying[i] == others[if i < s then i else i - 1];
    }
  }
}
