/** The search for a migration chain from one execution descriptor to another
    in a registry of host-supplied transformations. */
module MigrationChain {
  import opened Basics
  import opened Envelopes

  /** `hasTransform` is whether the host supplied a transformation. */
  datatype Migration = Migration(id: string, source: Descriptor, target: Descriptor, hasTransform: bool)

  type Edges = map<Descriptor, Migration>

  predicate ValidMigration(m: Migration) {
    m.id != "" && m.hasTransform && ValidDescriptor(m.source) && ValidDescriptor(m.target)
  }

  /** Entries are valid, and neither IDs nor sources are ambiguous. */
  predicate WellFormed(registry: seq<Migration>) {
    && (forall i :: 0 <= i < |registry| ==> ValidMigration(registry[i]))
    && (forall i, j :: 0 <= i < j < |registry| ==>
          registry[i].id != registry[j].id && registry[i].source != registry[j].source)
  }

  function EdgesOf(registry: seq<Migration>): Edges {
    if registry == [] then map[]
    else EdgesOf(registry[..|registry| - 1])[registry[|registry| - 1].source := registry[|registry| - 1]]
  }

  lemma {:induction false} EdgesAre(registry: seq<Migration>, d: Descriptor)
    requires WellFormed(registry)
    ensures d in EdgesOf(registry) <==> exists i :: 0 <= i < |registry| && registry[i].source == d
    ensures d in EdgesOf(registry) ==> EdgesOf(registry)[d] in registry && EdgesOf(registry)[d].source == d
  {
    if registry != [] {
      var rest, last := registry[..|registry| - 1], registry[|registry| - 1];
      EdgesAre(rest, d);
      if d == last.source {
        assert registry[|registry| - 1].source == d;
      } else if d in EdgesOf(rest) {
        var i :| 0 <= i < |rest| && rest[i].source == d;
        assert registry[i].source == d;
        assert EdgesOf(registry)[d] in rest;
      }
    }
  }

  /** The chain does not depend on the order of the registry. */
  lemma OrderIsIrrelevant(a: seq<Migration>, b: seq<Migration>)
    requires WellFormed(a) && WellFormed(b) && forall m :: m in a <==> m in b
    ensures EdgesOf(a) == EdgesOf(b)
  {
    forall d ensures d in EdgesOf(a) <==> d in EdgesOf(b)
      ensures d in EdgesOf(a) ==> EdgesOf(a)[d] == EdgesOf(b)[d]
    {
      EdgesAre(a, d);
      EdgesAre(b, d);
      if i :| 0 <= i < |a| && a[i].source == d {
        assert a[i] in b;
      }
      if i :| 0 <= i < |b| && b[i].source == d {
        assert b[i] in a;
      }
      if d in EdgesOf(a) && d in EdgesOf(b) {
        assert EdgesOf(b)[d] in a;
      }
    }
  }

  /** Contiguous migrations leading from `source` to `target`. */
  predicate Route(edges: Edges, source: Descriptor, target: Descriptor, path: seq<Migration>)
    decreases |path|
  {
    if path == [] then source == target
    else source in edges && path[0] == edges[source] && Route(edges, path[0].target, target, path[1..])
  }

  ghost predicate Reaches(edges: Edges, source: Descriptor, target: Descriptor) {
    exists path :: Route(edges, source, target, path)
  }

  /** No descriptor is left twice, and the target is never left. */
  predicate RepeatFree(path: seq<Migration>, target: Descriptor) {
    && (forall i, j :: 0 <= i < j < |path| ==> path[i].source != path[j].source)
    && (forall i :: 0 <= i < |path| ==> path[i].source != target)
  }

  predicate Keyed(edges: Edges) {
    forall d :: d in edges ==> edges[d].source == d
  }

  /** The walk of the source, as a function of the edges. */
  function Walk(edges: Edges, source: Descriptor, target: Descriptor, visited: set<Descriptor>): Result<seq<Migration>>
    decreases edges.Keys - visited
  {
    if source == target then Ok([])
    else if source in visited then Err(ErrMigrationInvalid)
    else if source !in edges then Err(ErrMigrationMissing)
    else match Walk(edges, edges[source].target, target, visited + {source})
      case Err(e) => Err(e)
      case Ok(rest) => Ok([edges[source]] + rest)
  }

  function Prepend(chain: seq<Migration>, r: Result<seq<Migration>>): Result<seq<Migration>> {
    match r case Err(e) => Err(e) case Ok(rest) => Ok(chain + rest)
  }

  /** Index the registry, then walk it. */
  method ExecutionMigrationChain(source: Descriptor, target: Descriptor, registry: seq<Migration>)
    returns (r: Result<seq<Migration>>)
    ensures !WellFormed(registry) ==> r == Err(ErrMigrationInvalid)
    ensures WellFormed(registry) ==> r == Walk(EdgesOf(registry), source, target, {})
  {
    var ok, edges := IndexRegistry(registry);
    if !ok {
      return Err(ErrMigrationInvalid);
    }
    r := WalkEdges(edges, source, target);
  }

  method IndexRegistry(registry: seq<Migration>) returns (ok: bool, edges: Edges)
    ensures ok <==> WellFormed(registry)
    ensures ok ==> edges == EdgesOf(registry)
  {
    hide ValidDescriptor;
    edges := map[];
    var ids: set<string> := {};
    for i := 0 to |registry|
      invariant edges == EdgesOf(registry[..i]) && ids == set k | 0 <= k < i :: registry[k].id
      invariant edges.Keys == set k | 0 <= k < i :: registry[k].source
      invariant WellFormed(registry[..i])
    {
      var m := registry[i];
      if m.id == "" || m.id in ids || !m.hasTransform {
        return false, edges;
      }
      if !ValidDescriptor(m.source) || !ValidDescriptor(m.target) {
        return false, edges;
      }
      if m.source in edges {
        return false, edges;
      }
      assert registry[..i + 1] == registry[..i] + [m] && registry[..i + 1][..i] == registry[..i];
      edges := edges[m.source := m];
      ids := ids + {m.id};
    }
    assert registry[..|registry|] == registry;
    return true, edges;
  }

  /** Walk until the target, a dead end or a descriptor seen before. The walk ends
      on every registry, cyclic ones included. */
  method WalkEdges(edges: Edges, source: Descriptor, target: Descriptor) returns (r: Result<seq<Migration>>)
    ensures r == Walk(edges, source, target, {})
  {
    var visited: set<Descriptor> := {};
    var chain: seq<Migration> := [];
    var at := source;
    assert forall rest: seq<Migration> :: [] + rest == rest;
    while at != target
      invariant Prepend(chain, Walk(edges, at, target, visited)) == Walk(edges, source, target, {})
      decreases edges.Keys - visited
    {
      if at in visited {
        return Err(ErrMigrationInvalid);
      }
      if at !in edges {
        return Err(ErrMigrationMissing);
      }
      PrependStep(chain, edges, at, target, visited);
      visited := visited + {at};
      chain := chain + [edges[at]];
      at := edges[at].target;
    }
    assert chain + [] == chain;
    return Ok(chain);
  }

  lemma PrependStep(chain: seq<Migration>, edges: Edges, at: Descriptor, target: Descriptor, visited: set<Descriptor>)
    requires at != target && at !in visited && at in edges
    ensures Prepend(chain, Walk(edges, at, target, visited)) ==
      Prepend(chain + [edges[at]], Walk(edges, edges[at].target, target, visited + {at}))
  {
    var rest := Walk(edges, edges[at].target, target, visited + {at});
    if rest.Ok? {
      assert chain + ([edges[at]] + rest.value) == chain + [edges[at]] + rest.value;
    }
  }

  // --------------------------------------------------------- what it computes

  lemma {:induction false} WalkIsRoute(edges: Edges, source: Descriptor, target: Descriptor, visited: set<Descriptor>)
    requires Keyed(edges) && Walk(edges, source, target, visited).Ok?
    ensures var p := Walk(edges, source, target, visited).value;
      && Route(edges, source, target, p) && RepeatFree(p, target)
      && forall i :: 0 <= i < |p| ==> p[i].source !in visited
    decreases edges.Keys - visited
  {
    if source != target {
      var rest := Walk(edges, edges[source].target, target, visited + {source}).value;
      WalkIsRoute(edges, edges[source].target, target, visited + {source});
      assert ([edges[source]] + rest)[1..] == rest;
    }
  }

  /** A repeat-free route outside the visited set is what the walk finds. */
  lemma {:induction false} WalkFinds(
    edges: Edges, source: Descriptor, target: Descriptor, path: seq<Migration>, visited: set<Descriptor>)
    requires Keyed(edges) && Route(edges, source, target, path) && RepeatFree(path, target)
    requires forall i :: 0 <= i < |path| ==> path[i].source !in visited
    ensures Walk(edges, source, target, visited) == Ok(path)
    decreases |path|
  {
    if path != [] {
      assert path[0].source == source;
      var rest := path[1..];
      assert forall i :: 0 <= i < |rest| ==> rest[i] == path[i + 1];
      WalkFinds(edges, edges[source].target, target, rest, visited + {source});
      assert path == [edges[source]] + rest;
    }
  }

  lemma {:induction false} RouteSuffix(
    edges: Edges, source: Descriptor, target: Descriptor, path: seq<Migration>, j: nat)
    requires Keyed(edges) && Route(edges, source, target, path) && j < |path|
    ensures Route(edges, path[j].source, target, path[j..])
    decreases j
  {
    if j == 0 {
      assert path[0..] == path;
    } else {
      RouteSuffix(edges, path[0].target, target, path[1..], j - 1);
      assert path[1..][j - 1] == path[j] && path[1..][j - 1..] == path[j..];
    }
  }

  /** Every route can be cut down to a repeat-free one: past its first arrival at
      the target it is dropped, and before it nothing can repeat. */
  lemma Shortened(edges: Edges, source: Descriptor, target: Descriptor, path: seq<Migration>)
    returns (q: seq<Migration>)
    requires Keyed(edges) && Route(edges, source, target, path)
    ensures Route(edges, source, target, q) && RepeatFree(q, target)
    decreases |path|
  {
    if source == target {
      return [];
    }
    var tail := Shortened(edges, path[0].target, target, path[1..]);
    forall j | 0 <= j < |tail| ensures tail[j].source != source {
      if tail[j].source == source {
        RouteSuffix(edges, path[0].target, target, tail, j);
        assert false;
      }
    }
    q := [edges[source]] + tail;
    assert q[1..] == tail;
  }

  /** The search succeeds exactly when the target is reachable, and its result is
      the one and only repeat-free chain. */
  lemma ChainIffReachable(edges: Edges, source: Descriptor, target: Descriptor)
    requires Keyed(edges)
    ensures Walk(edges, source, target, {}).Ok? <==> Reaches(edges, source, target)
    ensures Walk(edges, source, target, {}).Ok? ==> (
      forall path :: Route(edges, source, target, path) && RepeatFree(path, target) ==>
        path == Walk(edges, source, target, {}).value)
  {
    if Walk(edges, source, target, {}).Ok? {
      WalkIsRoute(edges, source, target, {});
      assert Route(edges, source, target, Walk(edges, source, target, {}).value);
    }
    if Reaches(edges, source, target) {
      var path :| Route(edges, source, target, path);
      var q := Shortened(edges, source, target, path);
      WalkFinds(edges, source, target, q, {});
    }
    forall path | Route(edges, source, target, path) && RepeatFree(path, target)
      ensures Walk(edges, source, target, {}) == Ok(path)
    {
      WalkFinds(edges, source, target, path, {});
    }
  }

  /** Some other descriptor without an outgoing migration is reachable. */
  ghost predicate DeadEnd(edges: Edges, source: Descriptor, target: Descriptor) {
    exists d, path :: d != target && d !in edges && Route(edges, source, d, path)
  }

  lemma {:induction false} WalkDies(
    edges: Edges, source: Descriptor, target: Descriptor, d: Descriptor, path: seq<Migration>, visited: set<Descriptor>)
    requires Keyed(edges) && Route(edges, source, d, path) && RepeatFree(path, target) && d != target && d !in edges
    requires d !in visited && forall i :: 0 <= i < |path| ==> path[i].source !in visited
    ensures Walk(edges, source, target, visited) == Err(ErrMigrationMissing)
    decreases |path|
  {
    if path != [] {
      assert path[0].source == source;
      var rest := path[1..];
      assert forall i :: 0 <= i < |rest| ==> rest[i] == path[i + 1];
      WalkDies(edges, edges[source].target, target, d, rest, visited + {source});
    }
  }

  lemma {:induction false} WalkMissing(
    edges: Edges, source: Descriptor, target: Descriptor, visited: set<Descriptor>)
    requires Walk(edges, source, target, visited) == Err(ErrMigrationMissing)
    ensures DeadEnd(edges, source, target)
    decreases edges.Keys - visited
  {
    if source !in edges {
      assert Route(edges, source, source, []);
    } else {
      WalkMissing(edges, edges[source].target, target, visited + {source});
      var d, path :| d != target && d !in edges && Route(edges, edges[source].target, d, path);
      var longer := [edges[source]] + path;
      assert longer[1..] == path;
      assert Route(edges, source, d, longer);
    }
  }

  lemma {:induction false} RoutePrefix(
    edges: Edges, source: Descriptor, target: Descriptor, path: seq<Migration>, j: nat)
    requires Keyed(edges) && Route(edges, source, target, path) && j < |path|
    ensures Route(edges, source, path[j].source, path[..j])
    decreases j
  {
    if j > 0 {
      RoutePrefix(edges, path[0].target, target, path[1..], j - 1);
      assert path[1..][j - 1] == path[j] && path[..j][1..] == path[1..][..j - 1] && path[..j][0] == path[0];
    }
  }

  /** A failed search reports a missing migration when it runs into a dead end,
      and an invalid registry when it goes around in a cycle instead. */
  lemma FailureKind(edges: Edges, source: Descriptor, target: Descriptor)
    requires Keyed(edges) && Walk(edges, source, target, {}).Err?
    ensures Walk(edges, source, target, {}) ==
      Err(if DeadEnd(edges, source, target) then ErrMigrationMissing else ErrMigrationInvalid)
  {
    WalkErrors(edges, source, target, {});
    if Walk(edges, source, target, {}) == Err(ErrMigrationMissing) {
      WalkMissing(edges, source, target, {});
    } else if DeadEnd(edges, source, target) {
      var d, path :| d != target && d !in edges && Route(edges, source, d, path);
      var q := Shortened(edges, source, d, path);
      forall j | 0 <= j < |q| ensures q[j].source != target {
        if q[j].source == target {
          RoutePrefix(edges, source, d, q, j);
          ChainIffReachable(edges, source, target);
          assert false;
        }
      }
      WalkDies(edges, source, target, d, q, {});
    }
  }

  lemma WalkErrors(edges: Edges, source: Descriptor, target: Descriptor, visited: set<Descriptor>)
    ensures Walk(edges, source, target, visited).Err? ==>
      Walk(edges, source, target, visited).error in {ErrMigrationMissing, ErrMigrationInvalid}
    decreases edges.Keys - visited
  {
    if source != target && source !in visited && source in edges {
      WalkErrors(edges, edges[source].target, target, visited + {source});
    }
  }

  /** The edges of a registry are keyed by their sources. */
  lemma RegistryIsKeyed(registry: seq<Migration>)
    requires WellFormed(registry)
    ensures Keyed(EdgesOf(registry))
  {
    forall d | d in EdgesOf(registry) ensures EdgesOf(registry)[d].source == d {
      EdgesAre(registry, d);
    }
  }
}
