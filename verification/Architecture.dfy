/** The async compatibility verdict over a call graph and a catalog of blocking calls. */
module Architecture {
  import opened Ordering
  import opened GraphModel
  import opened CanonicalPaths

  datatype Status = Compatible | Incompatible | UnknownStatus

  datatype PathEvidence = PathEvidence(source: NodeId, target: NodeId, calls: Path, status: Status)

  datatype Refusal = BudgetRefusal | InputRefusal

  /** An observation made elsewhere, carried along. */
  datatype Observation = Observation(kind: string, path: string, digest: string, rule: string, evidence: string)

  datatype Assessment =
    | Assessed(concurrency: string, paths: seq<PathEvidence>, observations: seq<seq<Observation>>, status: Status)
    | Refused(refusal: Refusal)

  datatype Limits = Limits(maxRoots: int, maxNodes: int, maxEdges: int, maxPathLength: int, maxPaths: int)

  // ----- What the verdict is about -----

  /** A chain of call edges of the graph. */
  predicate GraphChain(g: Graph, root: NodeId, path: Path, n: NodeId) {
    if path == [] then n == root
    else
      var last := path[|path| - 1];
      last in g.edges && last.kind.Calls? && last.target == n && GraphChain(g, root, path[..|path| - 1], last.source)
  }

  ghost predicate Reaches(g: Graph, root: NodeId, n: NodeId) {
    exists path :: path != [] && GraphChain(g, root, path, n)
  }

  /** Some async function or method of the graph reaches a different, catalogued node by calls. */
  ghost predicate BlocksAsync(g: Graph, catalog: set<NodeId>) {
    exists r, t :: HasNode(g, r) && (r.kind == AsyncFunction || r.kind == AsyncMethod) && Reaches(g, r, t) &&
      t != r && t in catalog
  }

  /** Some async function or method of the graph reaches a different, uncatalogued declared external by calls. */
  ghost predicate EscapesAsync(g: Graph, catalog: set<NodeId>) {
    exists r, t :: HasNode(g, r) && (r.kind == AsyncFunction || r.kind == AsyncMethod) && Reaches(g, r, t) &&
      t != r && t !in catalog && t.origin == DeclaredExternal
  }

  /** An unresolved call leaves a node that some async function or method is, or reaches by calls. */
  ghost predicate CoverageGap(g: Graph) {
    exists u, r :: u in g.unresolved && u.kind == Calls && HasNode(g, r) &&
      (r.kind == AsyncFunction || r.kind == AsyncMethod) && (u.source == r || Reaches(g, r, u.source))
  }

  /** The same roots, as the search collects them. */
  ghost predicate AsyncRoot(g: Graph, n: NodeId) { n.kind.Async() && HasNode(g, n) }

  /** The least chain of call edges in canonical order. */
  ghost predicate LeastChain(g: Graph, root: NodeId, n: NodeId, path: Path) {
    && path != [] && GraphChain(g, root, path, n)
    && forall c :: c != [] && GraphChain(g, root, c, n) ==> AtMost(path, c)
  }

  ghost predicate Adjacent(g: Graph, adj: Adjacency) {
    forall n, e :: e in CallsFrom(adj, n) <==> e in g.edges && e.kind.Calls? && e.source == n
  }

  lemma {:induction false} ChainsAgree(g: Graph, adj: Adjacency, root: NodeId, path: Path, n: NodeId)
    requires Adjacent(g, adj)
    ensures CallChain(adj, root, path, n) <==> GraphChain(g, root, path, n)
    decreases |path|
  {
    if path != [] {
      var last := path[|path| - 1];
      ChainsAgree(g, adj, root, path[..|path| - 1], last.source);
    }
  }

  lemma ReachesAgree(g: Graph, adj: Adjacency, root: NodeId, n: NodeId)
    requires Adjacent(g, adj)
    ensures Reachable(adj, root, n) <==> Reaches(g, root, n)
  {
    hide CallChain, GraphChain, Adjacent;
    forall c ensures CallChain(adj, root, c, n) <==> GraphChain(g, root, c, n) { ChainsAgree(g, adj, root, c, n); }
  }

  lemma LeastAgree(g: Graph, adj: Adjacency, root: NodeId, n: NodeId, path: Path)
    requires Adjacent(g, adj)
    ensures Least(adj, root, n, path) <==> LeastChain(g, root, n, path)
  {
    hide CallChain, GraphChain, Adjacent;
    forall c ensures CallChain(adj, root, c, n) <==> GraphChain(g, root, c, n) { ChainsAgree(g, adj, root, c, n); }
  }

  // ----- Concurrency -----

  ghost predicate Shows(g: Graph, kinds: set<NodeKind>) { exists n :: n in g.nodes && n.id.kind in kinds }

  /** The declared model if it is a known one, else what the node kinds show. */
  function Concurrency(g: Graph, declared: Option<string>): (r: Option<string>)
    ensures declared.Some? ==>
            r == if declared.value == "sync" || declared.value == "async" || declared.value == "mixed" ||
                declared.value == "unknown" then declared else None
    ensures declared.None? ==>
            && (r == Some("mixed") <==> Shows(g, {AsyncFunction, AsyncMethod}) && Shows(g, {Function, Method}))
            && (r == Some("async") <==> Shows(g, {AsyncFunction, AsyncMethod}) && !Shows(g, {Function, Method}))
            && (r == Some("sync") <==> !Shows(g, {AsyncFunction, AsyncMethod}) && Shows(g, {Function, Method}))
            && (r == Some("unknown") <==> !Shows(g, {AsyncFunction, AsyncMethod}) && !Shows(g, {Function, Method}))
  {
    if declared.Some? then
      if declared.value in {"sync", "async", "mixed", "unknown"} then declared else None
    else
      var hasAsync := exists k :: 0 <= k < |g.nodes| && g.nodes[k].id.kind.Async();
      var hasSync := exists k :: 0 <= k < |g.nodes| && (g.nodes[k].id.kind.Function? || g.nodes[k].id.kind.Method?);
      Some(if hasAsync && hasSync then "mixed" else if hasAsync then "async" else if hasSync then "sync" else "unknown")
  }

  // ----- Building the adjacency -----

  function CallsAmong(edges: seq<Edge>, n: NodeId): seq<Edge> {
    if edges == [] then []
    else
      var front := CallsAmong(edges[..|edges| - 1], n);
      var e := edges[|edges| - 1];
      if e.kind.Calls? && e.source == n then front + [e] else front
  }

  lemma {:induction false} CallsAmongMembers(edges: seq<Edge>, n: NodeId, e: Edge)
    ensures e in CallsAmong(edges, n) <==> e in edges && e.kind.Calls? && e.source == n
  {
    if edges != [] {
      CallsAmongMembers(edges[..|edges| - 1], n, e);
      assert edges == edges[..|edges| - 1] + [edges[|edges| - 1]];
    }
  }

  lemma {:induction false} CallsAmongDistinct(edges: seq<Edge>, n: NodeId)
    requires NoDuplicates(edges)
    ensures NoDuplicates(CallsAmong(edges, n))
  {
    if edges != [] {
      var front := edges[..|edges| - 1];
      CallsAmongDistinct(front, n);
      CallsAmongMembers(front, n, edges[|edges| - 1]);
    }
  }

  /** Sorting a duplicate-free list by edge key leaves it strictly increasing. */
  lemma SortedStrictly(s: seq<Edge>)
    requires NoDuplicates(s)
    ensures forall e :: e in Sort(EdgeLess, s) <==> e in s
    ensures forall i, j :: 0 <= i < j < |Sort(EdgeLess, s)| ==> EdgeLess(Sort(EdgeLess, s)[i], Sort(EdgeLess, s)[j])
  {
    hide EdgeLess;
    EdgeOrder();
    TotalIsWeak(EdgeLess);
    SortIsSorted(EdgeLess, s);
    SortKeepsDistinct(EdgeLess, s);
    SameMembers(Sort(EdgeLess, s), s);
  }

  ghost predicate DanglingCall(g: Graph) {
    exists e :: e in g.edges && e.kind.Calls? && (!HasNode(g, e.source) || !HasNode(g, e.target))
  }

  /** Group the call edges by source and sort each group; a dangling call is refused. */
  method BuildAdjacency(g: Graph) returns (ok: bool, adj: Adjacency)
    requires NoDuplicates(g.edges)
    ensures ok <==> !DanglingCall(g)
    ensures ok ==> Adjacent(g, adj) && Ordered(adj)
  {
    var ids := set node | node in g.nodes :: node.id;
    assert forall n :: n in ids <==> HasNode(g, n) by { NodeIds(g, ids); }
    var grouped: Adjacency := map[];
    adj := map[];
    for i := 0 to |g.edges|
      invariant forall n :: CallsFrom(grouped, n) == CallsAmong(g.edges[..i], n)
      invariant forall k :: 0 <= k < i && g.edges[k].kind.Calls? ==>
                HasNode(g, g.edges[k].source) && HasNode(g, g.edges[k].target)
    {
      var e := g.edges[i];
      assert g.edges[..i + 1][..i] == g.edges[..i];
      if e.kind.Calls? {
        if e.source !in ids || e.target !in ids {
          assert e in g.edges;
          return false, adj;
        }
        grouped := grouped[e.source := CallsFrom(grouped, e.source) + [e]];
      }
    }
    assert g.edges[..|g.edges|] == g.edges;
    adj := map n | n in grouped :: Sort(EdgeLess, grouped[n]);
    forall n ensures CallsFrom(adj, n) == Sort(EdgeLess, CallsAmong(g.edges, n)) {}
    AdjacencyHolds(g, adj);
    ok := true;
  }

  lemma NodeIds(g: Graph, ids: set<NodeId>)
    requires ids == set node | node in g.nodes :: node.id
    ensures forall n :: n in ids <==> HasNode(g, n)
  {
    forall n ensures n in ids <==> HasNode(g, n) {
      if HasNode(g, n) {
        var k :| 0 <= k < |g.nodes| && g.nodes[k].id == n;
        assert g.nodes[k] in g.nodes;
      }
    }
  }

  lemma AdjacencyHolds(g: Graph, adj: Adjacency)
    requires NoDuplicates(g.edges)
    requires forall n :: CallsFrom(adj, n) == Sort(EdgeLess, CallsAmong(g.edges, n))
    ensures Adjacent(g, adj) && Ordered(adj)
  {
    hide EdgeLess, Sort;
    forall n ensures forall e :: e in CallsFrom(adj, n) <==> e in g.edges && e.kind.Calls? && e.source == n {
      CallsAmongDistinct(g.edges, n);
      SortedStrictly(CallsAmong(g.edges, n));
      forall e
        ensures e in CallsFrom(adj, n) <==> e in g.edges && e.kind.Calls? && e.source == n
      {
        CallsAmongMembers(g.edges, n, e);
      }
    }
    forall n, i, j | 0 <= i < j < |CallsFrom(adj, n)| ensures EdgeLess(CallsFrom(adj, n)[i], CallsFrom(adj, n)[j]) {
      CallsAmongDistinct(g.edges, n);
      SortedStrictly(CallsAmong(g.edges, n));
    }
  }

  // ----- Everything reachable from the async roots -----

  /** A root, or reached by calls from one. */
  ghost predicate FromRoots(adj: Adjacency, roots: seq<NodeId>, n: NodeId) {
    n in roots || exists r :: r in roots && Reachable(adj, r, n)
  }

  ghost predicate ClosedButPending(adj: Adjacency, seen: set<NodeId>, pending: seq<NodeId>) {
    forall n, e :: n in seen && n !in pending && e in CallsFrom(adj, n) ==> e.target in seen
  }

  lemma StepReaches(adj: Adjacency, roots: seq<NodeId>, n: NodeId, e: Edge)
    requires Ordered(adj) && FromRoots(adj, roots, n) && e in CallsFrom(adj, n)
    ensures FromRoots(adj, roots, e.target)
  {
    hide EdgeLess;
    if n in roots {
      ExtendChain(adj, n, [], n, e);
      assert [] + [e] == [e];
      assert Reachable(adj, n, e.target);
    } else {
      var r :| r in roots && Reachable(adj, r, n);
      var c :| c != [] && CallChain(adj, r, c, n);
      ExtendChain(adj, r, c, n, e);
      assert c + [e] != [];
      assert Reachable(adj, r, e.target);
    }
  }

  lemma {:induction false} ChainStaysSeen(adj: Adjacency, seen: set<NodeId>, r: NodeId, c: Path, n: NodeId)
    requires r in seen && CallChain(adj, r, c, n) && ClosedButPending(adj, seen, [])
    ensures n in seen
    decreases |c|
  {
    if c != [] {
      ChainStaysSeen(adj, seen, r, c[..|c| - 1], c[|c| - 1].source);
    }
  }

  ghost predicate Exploring(adj: Adjacency, roots: seq<NodeId>, seen: set<NodeId>, pending: seq<NodeId>) {
    && Ordered(adj)
    && (forall r :: r in roots ==> r in seen)
    && (forall n :: n in seen ==> FromRoots(adj, roots, n))
    && (forall n :: n in pending ==> n in seen)
  }

  /** Note the unseen targets of one node's calls. */
  method ScanCalls(adj: Adjacency, ghost roots: seq<NodeId>, seen0: set<NodeId>, pending0: seq<NodeId>, current: NodeId)
    returns (seen: set<NodeId>, pending: seq<NodeId>)
    requires Exploring(adj, roots, seen0, pending0) && current in seen0
    requires ClosedButPending(adj, seen0, pending0 + [current])
    ensures Exploring(adj, roots, seen, pending) && ClosedButPending(adj, seen, pending)
    ensures seen0 <= seen
    ensures seen == seen0 ==> pending == pending0
    ensures seen != seen0 ==> Targets(adj) - seen < Targets(adj) - seen0
  {
    hide Ordered, FromRoots, Targets;
    seen, pending := seen0, pending0;
    var calls := CallsFrom(adj, current);
    for i := 0 to |calls|
      invariant Exploring(adj, roots, seen, pending)
      invariant seen0 <= seen && ClosedButPending(adj, seen, pending + [current])
      invariant forall k :: 0 <= k < i ==> calls[k].target in seen
      invariant seen == seen0 ==> pending == pending0
      invariant seen != seen0 ==> Targets(adj) - seen < Targets(adj) - seen0
    {
      var e := calls[i];
      if e.target !in seen {
        StepReaches(adj, roots, current, e);
        assert e.target in Targets(adj) by { TargetOf(adj, current, e); }
        ghost var was, pend := seen, pending;
        seen := seen + {e.target};
        pending := pending + [e.target];
        assert e.target in Targets(adj) - was && e.target !in Targets(adj) - seen;
        assert Targets(adj) - seen <= Targets(adj) - was <= Targets(adj) - seen0;
        assert ClosedButPending(adj, seen, pending + [current]) by {
          forall n, x | n in seen && n !in pending + [current] && x in CallsFrom(adj, n) ensures x.target in seen {
            assert n != e.target;
            assert n !in pend + [current];
          }
        }
      }
    }
    assert ClosedButPending(adj, seen, pending) by {
      forall n, x | n in seen && n !in pending && x in CallsFrom(adj, n) ensures x.target in seen {
        if n == current {
          var k :| 0 <= k < |calls| && calls[k] == x;
        } else {
          assert n !in pending + [current];
        }
      }
    }
  }

  lemma TargetOf(adj: Adjacency, n: NodeId, e: Edge)
    requires e in CallsFrom(adj, n)
    ensures e.target in Targets(adj)
  {
  }

  /** Depth-first closure of the roots under calls. */
  method ReachableSources(adj: Adjacency, roots: seq<NodeId>) returns (seen: set<NodeId>)
    requires Ordered(adj)
    ensures forall n :: n in seen <==> FromRoots(adj, roots, n)
  {
    hide Ordered, Reachable, Targets;
    seen := set r | r in roots;
    var pending := roots;
    while pending != []
      invariant Exploring(adj, roots, seen, pending)
      invariant ClosedButPending(adj, seen, pending)
      decreases Targets(adj) - seen, |pending|
    {
      var current := pending[|pending| - 1];
      assert pending == pending[..|pending| - 1] + [current];
      seen, pending := ScanCalls(adj, roots, seen, pending[..|pending| - 1], current);
    }
    forall n | FromRoots(adj, roots, n) ensures n in seen {
      if n !in roots {
        var r :| r in roots && Reachable(adj, r, n);
        ReachableStaysSeen(adj, seen, r, n);
      }
    }
  }

  lemma ReachableStaysSeen(adj: Adjacency, seen: set<NodeId>, r: NodeId, n: NodeId)
    requires r in seen && Reachable(adj, r, n) && ClosedButPending(adj, seen, [])
    ensures n in seen
  {
    var c :| c != [] && CallChain(adj, r, c, n);
    ChainStaysSeen(adj, seen, r, c, n);
  }

  // ----- Evidence -----

  /** The status a reached target contributes, if any. */
  function TargetStatus(catalog: set<NodeId>, t: NodeId): Option<Status> {
    if t in catalog then Some(Incompatible)
    else if t.origin.DeclaredExternal? then Some(UnknownStatus)
    else None
  }

  /** One piece of evidence per root and contributing target, with its least chain; nothing else. */
  ghost predicate EvidenceOf(
      adj: Adjacency, catalog: set<NodeId>, r: NodeId, ts: set<NodeId>, paths: seq<PathEvidence>) {
    && (forall ev :: ev in paths && ev.source == r ==>
          ev.target in ts && ev.target != r && Least(adj, r, ev.target, ev.calls) &&
              Some(ev.status) == TargetStatus(catalog, ev.target))
    && (forall t :: t in ts && TargetStatus(catalog, t).Some? ==>
       exists ev :: ev in paths && ev.source == r && ev.target == t)
  }

  /** No pair of root and target occurs twice. */
  ghost predicate DistinctPairs(paths: seq<PathEvidence>) {
    forall i, j :: 0 <= i < j < |paths| ==> paths[i].source != paths[j].source || paths[i].target != paths[j].target
  }

  /** Evidence from `r` covers one more target, and repeats none. */
  lemma CollectOne(
      adj: Adjacency, catalog: set<NodeId>, r: NodeId, done: set<NodeId>, t: NodeId, calls: Path,
      paths: seq<PathEvidence>)
    requires EvidenceOf(adj, catalog, r, done, paths) && DistinctPairs(paths)
    requires t !in done && t != r && Least(adj, r, t, calls)
    ensures var status := TargetStatus(catalog, t);
            var paths' := if status.Some? then paths + [PathEvidence(r, t, calls, status.value)] else paths;
            EvidenceOf(adj, catalog, r, done + {t}, paths') && DistinctPairs(paths')
  {
    hide Least;
    var status := TargetStatus(catalog, t);
    if status.Some? {
      var ev := PathEvidence(r, t, calls, status.value);
      var paths' := paths + [ev];
      forall k | 0 <= k < |paths| ensures paths[k].source != r || paths[k].target != t { assert paths[k] in paths; }
      forall x | x in done + {t} && TargetStatus(catalog, x).Some?
        ensures exists e :: e in paths' && e.source == r && e.target == x
      {
        if x == t {
          assert ev in paths';
        } else {
          var e :| e in paths && e.source == r && e.target == x;
          assert e in paths';
        }
      }
    }
  }

  method CollectEvidence(
      adj: Adjacency, catalog: set<NodeId>, r: NodeId, canonical: Best, before: seq<PathEvidence>, maxPaths: int)
    returns (ok: bool, paths: seq<PathEvidence>)
    requires forall n :: n in canonical ==> n != r && Least(adj, r, n, canonical[n])
    requires forall ev :: ev in before ==> ev.source != r
    requires DistinctPairs(before) && |before| <= maxPaths
    ensures ok <==> |paths| <= maxPaths
    ensures DistinctPairs(paths) && exists ts :: ts <= canonical.Keys && EvidenceOf(adj, catalog, r, ts, paths)
    ensures ok ==> EvidenceOf(adj, catalog, r, canonical.Keys, paths)
    ensures forall ev :: ev in before ==> ev in paths
    ensures forall ev :: ev in paths && ev.source != r ==> ev in before
  {
    hide Least, EvidenceOf, DistinctPairs;
    paths := before;
    var keys := canonical.Keys;
    ghost var done: set<NodeId> := {};
    assert EvidenceOf(adj, catalog, r, {}, before) by { NoEvidence(adj, catalog, r, before); }
    while keys != {}
      invariant keys <= canonical.Keys && done == canonical.Keys - keys
      invariant EvidenceOf(adj, catalog, r, done, paths) && DistinctPairs(paths) && |paths| <= maxPaths
      invariant forall ev :: ev in before ==> ev in paths
      invariant forall ev :: ev in paths && ev.source != r ==> ev in before
      decreases |keys|
    {
      var t :| t in keys;
      CollectOne(adj, catalog, r, done, t, canonical[t], paths);
      var status := TargetStatus(catalog, t);
      if status.Some? { paths := paths + [PathEvidence(r, t, canonical[t], status.value)]; }
      keys := keys - {t};
      done := done + {t};
      if |paths| > maxPaths { return false, paths; }
    }
    assert done == canonical.Keys;
    ok := true;
  }

  lemma NoEvidence(adj: Adjacency, catalog: set<NodeId>, r: NodeId, before: seq<PathEvidence>)
    requires forall ev :: ev in before ==> ev.source != r
    ensures EvidenceOf(adj, catalog, r, {}, before)
  {
  }

  /** The evidence gathered for the first `i` roots: sound and complete. */
  ghost predicate Gathered(adj: Adjacency, catalog: set<NodeId>, roots: seq<NodeId>, i: nat, paths: seq<PathEvidence>)
    requires i <= |roots|
  {
    && (forall ev :: ev in paths ==>
          && ev.source in roots[..i] && ev.target != ev.source
          && Least(adj, ev.source, ev.target, ev.calls) && Some(ev.status) == TargetStatus(catalog, ev.target))
    && (forall j, t :: 0 <= j < i && Reachable(adj, roots[j], t) && t != roots[j] && TargetStatus(catalog, t).Some? ==>
          exists ev :: ev in paths && ev.source == roots[j] && ev.target == t)
  }

  lemma GatherOne(
      adj: Adjacency, catalog: set<NodeId>, roots: seq<NodeId>, i: nat, before: seq<PathEvidence>, canonical: Best,
      paths: seq<PathEvidence>)
    requires i < |roots| && NoDuplicates(roots) && Gathered(adj, catalog, roots, i, before)
    requires EvidenceOf(adj, catalog, roots[i], canonical.Keys, paths)
    requires forall n :: n in canonical <==> n != roots[i] && Reachable(adj, roots[i], n)
    requires forall ev :: ev in before ==> ev in paths
    requires forall ev :: ev in paths && ev.source != roots[i] ==> ev in before
    ensures Gathered(adj, catalog, roots, i + 1, paths)
  {
    hide Least, Reachable, TargetStatus;
    assert roots[..i + 1] == roots[..i] + [roots[i]];
    forall j, t | 0 <= j < i + 1 && Reachable(adj, roots[j], t) && t != roots[j] && TargetStatus(catalog, t).Some?
      ensures exists ev :: ev in paths && ev.source == roots[j] && ev.target == t
    {
      if j < i {
        var ev :| ev in before && ev.source == roots[j] && ev.target == t;
      } else {
        assert t in canonical.Keys;
      }
    }
  }

  /** Every piece of evidence is a least chain from a root to a target that matters. */
  ghost predicate Justified(adj: Adjacency, catalog: set<NodeId>, roots: seq<NodeId>, paths: seq<PathEvidence>) {
    forall ev :: ev in paths ==>
      && ev.source in roots && ev.target != ev.source
      && Least(adj, ev.source, ev.target, ev.calls) && Some(ev.status) == TargetStatus(catalog, ev.target)
  }

  lemma StillJustified(
      adj: Adjacency, catalog: set<NodeId>, roots: seq<NodeId>, i: nat, before: seq<PathEvidence>, ts: set<NodeId>,
      paths: seq<PathEvidence>)
    requires i < |roots| && Gathered(adj, catalog, roots, i, before) && EvidenceOf(adj, catalog, roots[i], ts, paths)
    requires forall ev :: ev in paths && ev.source != roots[i] ==> ev in before
    ensures Justified(adj, catalog, roots, paths)
  {
    hide Least, Reachable, TargetStatus;
  }

  /** Run the search from every root. It gives up on a root whose chains run too
      long, or with more justified evidence in hand than allowed. */
  method GatherEvidence(
      adj: Adjacency, catalog: set<NodeId>, roots: seq<NodeId>, limits: Limits)
    returns (ok: bool, paths: seq<PathEvidence>)
    requires Ordered(adj) && NoDuplicates(roots) && limits.maxPathLength > 0 && limits.maxPaths > 0
    ensures ok ==> Gathered(adj, catalog, roots, |roots|, paths) && DistinctPairs(paths) && |paths| <= limits.maxPaths
    ensures ok ==> forall r :: r in roots ==> !TooDeep(adj, r, limits.maxPathLength)
    ensures !ok ==> || (exists r :: r in roots && TooDeep(adj, r, limits.maxPathLength))
                    || (Justified(adj, catalog, roots, paths) && DistinctPairs(paths) && |paths| > limits.maxPaths)
  {
    hide Ordered, Least, Reachable, TooDeep, Targets, EvidenceOf, DistinctPairs;
    paths := [];
    assert DistinctPairs(paths) by { NoPairs(); }
    for i := 0 to |roots|
      invariant Gathered(adj, catalog, roots, i, paths)
      invariant DistinctPairs(paths) && |paths| <= limits.maxPaths
      invariant forall j :: 0 <= j < i ==> !TooDeep(adj, roots[j], limits.maxPathLength)
    {
      var canonical, _ := FindPaths(roots[i], adj, limits.maxPathLength);
      if canonical.LimitExceeded? { return false, paths; }
      assert forall ev :: ev in paths ==> ev.source != roots[i];
      var more: seq<PathEvidence>;
      ok, more := CollectEvidence(adj, catalog, roots[i], canonical.paths, paths, limits.maxPaths);
      if !ok {
        ghost var ts :| ts <= canonical.paths.Keys && EvidenceOf(adj, catalog, roots[i], ts, more);
        StillJustified(adj, catalog, roots, i, paths, ts, more);
        paths := more;
        return;
      }
      GatherOne(adj, catalog, roots, i, paths, canonical.paths, more);
      paths := more;
    }
    ok := true;
  }

  lemma NoPairs()
    ensures DistinctPairs([])
  {
  }

  // ----- The assessment -----

  function AsyncCount(nodes: seq<Node>): nat {
    if nodes == [] then 0
    else AsyncCount(nodes[..|nodes| - 1]) + if nodes[|nodes| - 1].id.kind.Async() then 1 else 0
  }

  method AsyncRoots(g: Graph) returns (roots: seq<NodeId>)
    requires forall i, j :: 0 <= i < j < |g.nodes| ==> g.nodes[i].id != g.nodes[j].id
    ensures NoDuplicates(roots) && forall n :: n in roots <==> AsyncRoot(g, n)
    ensures forall n :: n in roots <==> HasNode(g, n) && (n.kind == AsyncFunction || n.kind == AsyncMethod)
    ensures |roots| == AsyncCount(g.nodes)
  {
    var found: seq<NodeId> := [];
    for i := 0 to |g.nodes|
      invariant forall n :: n in found <==> n.kind.Async() && exists k :: 0 <= k < i && g.nodes[k].id == n
      invariant NoDuplicates(found)
      invariant |found| == AsyncCount(g.nodes[..i])
    {
      assert g.nodes[..i + 1][..i] == g.nodes[..i];
      if g.nodes[i].id.kind.Async() { found := found + [g.nodes[i].id]; }
    }
    assert g.nodes[..|g.nodes|] == g.nodes;
    roots := Sort(NodeLess, found);
    SameMembers(roots, found);
    SortKeepsDistinct(NodeLess, found);
    assert |multiset(roots)| == |multiset(found)|;
  }

  lemma GapsAgree(g: Graph, adj: Adjacency, roots: seq<NodeId>, seen: set<NodeId>)
    requires Adjacent(g, adj)
    requires forall n :: n in roots <==> AsyncRoot(g, n)
    requires forall n :: n in seen <==> FromRoots(adj, roots, n)
    ensures CoverageGap(g) <==> exists u :: u in g.unresolved && u.kind.Calls? && u.source in seen
  {
    hide Adjacent, Reaches, Reachable, HasNode;
    forall r, n ensures Reachable(adj, r, n) <==> Reaches(g, r, n) { ReachesAgree(g, adj, r, n); }
    if CoverageGap(g) {
      var u, r :| u in g.unresolved && u.kind == Calls && HasNode(g, r) &&
        (r.kind == AsyncFunction || r.kind == AsyncMethod) && (u.source == r || Reaches(g, r, u.source));
      assert AsyncRoot(g, r);
      assert FromRoots(adj, roots, u.source);
    }
    if u :| u in g.unresolved && u.kind.Calls? && u.source in seen {
      assert FromRoots(adj, roots, u.source);
      if u.source !in roots { var r :| r in roots && Reachable(adj, r, u.source); }
    }
  }

  /** What the evidence means for the graph. */
  ghost predicate Sound(g: Graph, catalog: set<NodeId>, paths: seq<PathEvidence>) {
    forall ev :: ev in paths ==>
      && AsyncRoot(g, ev.source) && ev.target != ev.source && LeastChain(g, ev.source, ev.target, ev.calls)
      && Some(ev.status) == TargetStatus(catalog, ev.target)
  }

  ghost predicate Thorough(g: Graph, catalog: set<NodeId>, paths: seq<PathEvidence>) {
    forall r, t :: AsyncRoot(g, r) && Reaches(g, r, t) && t != r && TargetStatus(catalog, t).Some? ==>
      exists ev :: ev in paths && ev.source == r && ev.target == t
  }

  lemma GatheredMeans(g: Graph, adj: Adjacency, catalog: set<NodeId>, roots: seq<NodeId>, paths: seq<PathEvidence>)
    requires Adjacent(g, adj) && Gathered(adj, catalog, roots, |roots|, paths)
    requires forall n :: n in roots <==> AsyncRoot(g, n)
    ensures Sound(g, catalog, paths) && Thorough(g, catalog, paths)
  {
    hide Adjacent, Reaches, Reachable, AsyncRoot, Least, LeastChain, TargetStatus;
    assert roots[..|roots|] == roots;
    forall ev | ev in paths ensures LeastChain(g, ev.source, ev.target, ev.calls) {
      LeastAgree(g, adj, ev.source, ev.target, ev.calls);
    }
    forall r, t | AsyncRoot(g, r) && Reaches(g, r, t) && t != r && TargetStatus(catalog, t).Some?
      ensures exists ev :: ev in paths && ev.source == r && ev.target == t
    {
      ReachesAgree(g, adj, r, t);
      var j :| 0 <= j < |roots| && roots[j] == r;
    }
  }

  function Verdict(paths: seq<PathEvidence>, concurrency: string): Status {
    if exists k :: 0 <= k < |paths| && paths[k].status.Incompatible? then Incompatible
    else if (exists k :: 0 <= k < |paths| && paths[k].status.UnknownStatus?) ||
        concurrency == "unknown" then UnknownStatus
    else Compatible
  }

  lemma ChainReaches(g: Graph, root: NodeId, n: NodeId, path: Path)
    requires LeastChain(g, root, n, path)
    ensures Reaches(g, root, n)
  {
  }

  /** The verdict is exact for sound and thorough evidence. */
  lemma VerdictIsExact(g: Graph, catalog: set<NodeId>, paths: seq<PathEvidence>, concurrency: string)
    requires Sound(g, catalog, paths) && Thorough(g, catalog, paths)
    ensures Verdict(paths, concurrency).Incompatible? <==> BlocksAsync(g, catalog)
    ensures Verdict(paths, concurrency).UnknownStatus? <==>
            !BlocksAsync(g, catalog) && (EscapesAsync(g, catalog) || concurrency == "unknown")
  {
    hide Reaches, HasNode, LeastChain;
    forall k | 0 <= k < |paths|
      ensures paths[k].status.Incompatible? ==> BlocksAsync(g, catalog)
      ensures paths[k].status.UnknownStatus? ==> EscapesAsync(g, catalog)
    {
      var ev := paths[k];
      assert ev in paths;
      ChainReaches(g, ev.source, ev.target, ev.calls);
    }
    if BlocksAsync(g, catalog) {
      var r, t :| HasNode(g, r) && (r.kind == AsyncFunction || r.kind == AsyncMethod) && Reaches(g, r, t) &&
        t != r && t in catalog;
      assert AsyncRoot(g, r);
      var ev :| ev in paths && ev.source == r && ev.target == t;
      var k :| 0 <= k < |paths| && paths[k] == ev;
    }
    if EscapesAsync(g, catalog) {
      var r, t :| HasNode(g, r) && (r.kind == AsyncFunction || r.kind == AsyncMethod) && Reaches(g, r, t) &&
        t != r && t !in catalog && t.origin == DeclaredExternal;
      assert AsyncRoot(g, r);
      var ev :| ev in paths && ev.source == r && ev.target == t;
      var k :| 0 <= k < |paths| && paths[k] == ev;
    }
  }

  // ----- The limits -----

  /** Refused at the door: a limit that is not positive, or a graph over one. */
  predicate OverLimits(g: Graph, limits: Limits) {
    || limits.maxRoots <= 0 || limits.maxNodes <= 0 || limits.maxEdges <= 0 || limits.maxPathLength <= 0 ||
       limits.maxPaths <= 0
    || |g.nodes| > limits.maxNodes || |g.edges| > limits.maxEdges || AsyncCount(g.nodes) > limits.maxRoots
  }

  function AsyncNodes(nodes: seq<Node>): set<NodeId> {
    set n | n in nodes && (n.id.kind == AsyncFunction || n.id.kind == AsyncMethod) :: n.id
  }

  lemma AsyncNodesGrow(front: seq<Node>, last: Node)
    requires forall k :: 0 <= k < |front| ==> front[k].id != last.id
    ensures |AsyncNodes(front + [last])| ==
            |AsyncNodes(front)| + if last.id.kind == AsyncFunction || last.id.kind == AsyncMethod then 1 else 0
  {
    var all, some := AsyncNodes(front + [last]), AsyncNodes(front);
    assert last.id !in some;
    if last.id.kind == AsyncFunction || last.id.kind == AsyncMethod {
      assert last in front + [last];
      assert all == some + {last.id};
    } else {
      assert all == some;
    }
  }

  lemma {:induction false} AsyncCountIsSize(nodes: seq<Node>)
    requires forall i, j :: 0 <= i < j < |nodes| ==> nodes[i].id != nodes[j].id
    ensures AsyncCount(nodes) == |AsyncNodes(nodes)|
  {
    if nodes == [] {
      assert AsyncNodes(nodes) == {};
    } else {
      hide AsyncNodes;
      var front, last := nodes[..|nodes| - 1], nodes[|nodes| - 1];
      AsyncCountIsSize(front);
      AsyncNodesGrow(front, last);
      assert nodes == front + [last];
    }
  }

  /** A graph is let in exactly when every limit is positive and none is below what it counts. */
  lemma LimitsAdmit(g: Graph, limits: Limits)
    requires forall i, j :: 0 <= i < j < |g.nodes| ==> g.nodes[i].id != g.nodes[j].id
    ensures !OverLimits(g, limits) <==>
            && 1 <= limits.maxPathLength && 1 <= limits.maxPaths
            && Max(1, |AsyncNodes(g.nodes)|) <= limits.maxRoots
            && Max(1, |g.nodes|) <= limits.maxNodes && Max(1, |g.edges|) <= limits.maxEdges
  {
    AsyncCountIsSize(g.nodes);
  }

  /** Some least chain from `r` uses up the limit at a node that calls on. */
  ghost predicate TooDeepFrom(g: Graph, r: NodeId, limit: int) {
    exists n, path, e :: LeastChain(g, r, n, path) && |path| >= limit && e in g.edges && e.kind.Calls? && e.source == n
  }

  /** More pairs of root and target matter than may be reported. */
  ghost predicate TooMany(g: Graph, catalog: set<NodeId>, limit: int) {
    exists paths :: Sound(g, catalog, paths) && DistinctPairs(paths) && |paths| > limit
  }

  ghost predicate OverReach(g: Graph, catalog: set<NodeId>, limits: Limits) {
    || (exists r :: AsyncRoot(g, r) && TooDeepFrom(g, r, limits.maxPathLength))
    || TooMany(g, catalog, limits.maxPaths)
  }

  lemma DepthsAgree(g: Graph, adj: Adjacency, r: NodeId, limit: nat)
    requires Adjacent(g, adj)
    ensures TooDeep(adj, r, limit) <==> TooDeepFrom(g, r, limit)
  {
    hide Least, LeastChain;
    forall n, path ensures Least(adj, r, n, path) <==> LeastChain(g, r, n, path) { LeastAgree(g, adj, r, n, path); }
    if TooDeep(adj, r, limit) {
      var n, path :| Least(adj, r, n, path) && |path| >= limit && CallsFrom(adj, n) != [];
      var e := CallsFrom(adj, n)[0];
      assert e in CallsFrom(adj, n);
      assert LeastChain(g, r, n, path) && e in g.edges && e.kind.Calls? && e.source == n;
    }
    if TooDeepFrom(g, r, limit) {
      var n, path, e :| LeastChain(g, r, n, path) && |path| >= limit && e in g.edges && e.kind.Calls? && e.source == n;
      assert e in CallsFrom(adj, n) && Least(adj, r, n, path);
    }
  }

  function PairsOf(paths: seq<PathEvidence>): set<(NodeId, NodeId)> { set ev | ev in paths :: (ev.source, ev.target) }

  lemma {:induction false} PairsCount(paths: seq<PathEvidence>)
    ensures |PairsOf(paths)| <= |paths|
    ensures DistinctPairs(paths) ==> |PairsOf(paths)| == |paths|
  {
    if paths != [] {
      var n := |paths| - 1;
      var front, last := paths[..n], paths[n];
      PairsCount(front);
      assert paths == front + [last];
      assert PairsOf(paths) == PairsOf(front) + {(last.source, last.target)};
      if DistinctPairs(paths) { assert (last.source, last.target) !in PairsOf(front); }
    }
  }

  /** Thorough evidence is as long as any. */
  lemma ThoroughIsLongest(g: Graph, catalog: set<NodeId>, paths: seq<PathEvidence>, others: seq<PathEvidence>)
    requires Thorough(g, catalog, paths) && Sound(g, catalog, others) && DistinctPairs(others)
    ensures |others| <= |paths|
  {
    hide Reaches, AsyncRoot, LeastChain, TargetStatus;
    forall pair | pair in PairsOf(others) ensures pair in PairsOf(paths) {
      var ev :| ev in others && pair == (ev.source, ev.target);
      ChainReaches(g, ev.source, ev.target, ev.calls);
      var same :| same in paths && same.source == ev.source && same.target == ev.target;
    }
    PairsCount(paths);
    PairsCount(others);
    SubsetSize(PairsOf(others), PairsOf(paths));
  }

  lemma JustifiedIsSound(g: Graph, adj: Adjacency, catalog: set<NodeId>, roots: seq<NodeId>, paths: seq<PathEvidence>)
    requires Adjacent(g, adj) && Justified(adj, catalog, roots, paths) && forall n :: n in roots <==> AsyncRoot(g, n)
    ensures Sound(g, catalog, paths)
  {
    hide Adjacent, AsyncRoot, Least, LeastChain, TargetStatus;
    forall ev | ev in paths ensures LeastChain(g, ev.source, ev.target, ev.calls) {
      LeastAgree(g, adj, ev.source, ev.target, ev.calls);
    }
  }

  /** The search gives up exactly when the graph reaches too far for the limits. */
  lemma GivesUpExactly(
      g: Graph, adj: Adjacency, catalog: set<NodeId>, roots: seq<NodeId>, limits: Limits, ok: bool,
      paths: seq<PathEvidence>)
    requires Adjacent(g, adj) && limits.maxPathLength > 0 && forall n :: n in roots <==> AsyncRoot(g, n)
    requires ok ==> Sound(g, catalog, paths) && Thorough(g, catalog, paths)
    requires ok ==> DistinctPairs(paths) && |paths| <= limits.maxPaths
    requires ok ==> forall r :: r in roots ==> !TooDeep(adj, r, limits.maxPathLength)
    requires !ok ==> || (exists r :: r in roots && TooDeep(adj, r, limits.maxPathLength))
                     || (Justified(adj, catalog, roots, paths) && DistinctPairs(paths) && |paths| > limits.maxPaths)
    ensures ok <==> !OverReach(g, catalog, limits)
  {
    hide Adjacent, AsyncRoot, Sound, Thorough, DistinctPairs, TooDeep, TooDeepFrom, Justified;
    forall r ensures TooDeep(adj, r, limits.maxPathLength) <==> TooDeepFrom(g, r, limits.maxPathLength) {
      DepthsAgree(g, adj, r, limits.maxPathLength);
    }
    if ok {
      forall others | Sound(g, catalog, others) && DistinctPairs(others) ensures |others| <= |paths| {
        ThoroughIsLongest(g, catalog, paths, others);
      }
    } else if Justified(adj, catalog, roots, paths) {
      JustifiedIsSound(g, adj, catalog, roots, paths);
    }
  }

  // ----- The order of what is reported -----

  function PairKey(ev: PathEvidence): Key { NodeKey(ev.source) + NodeKey(ev.target) }

  predicate PairLess(a: PathEvidence, b: PathEvidence) { KeyLess(PairKey(a), PairKey(b)) }

  lemma PairKeyInjective(a: PathEvidence, b: PathEvidence)
    requires PairKey(a) == PairKey(b)
    ensures a.source == b.source && a.target == b.target
  {
    hide NodeKey;
    SplitEqual(NodeKey(a.source), NodeKey(a.target), NodeKey(b.source), NodeKey(b.target));
    NodeKeyInjective(a.source, b.source);
    NodeKeyInjective(a.target, b.target);
  }

  lemma PairOrder()
    ensures StrictWeak(PairLess)
  {
    hide PairKey;
    KeyOrder();
  }

  /** Evidence in the order of its roots, and for one root in the order of its targets. */
  ghost predicate InOrder(paths: seq<PathEvidence>) {
    forall i, j :: 0 <= i < j < |paths| ==>
      || NodeLess(paths[i].source, paths[j].source)
      || (paths[i].source == paths[j].source && NodeLess(paths[i].target, paths[j].target))
  }

  lemma PairFieldsDecide(a: PathEvidence, b: PathEvidence)
    ensures PairLess(a, b) <==>
            if a.source != b.source then NodeLess(a.source, b.source) else NodeLess(a.target, b.target)
  {
    hide NodeKey, KeyLess;
    PartsDecide(NodeKey(a.source), NodeKey(b.source), NodeKey(a.target), NodeKey(b.target));
    if NodeKey(a.source) == NodeKey(b.source) { NodeKeyInjective(a.source, b.source); }
  }

  lemma DistinctSorts(paths: seq<PathEvidence>)
    requires DistinctPairs(paths)
    ensures var sorted := Sort(PairLess, paths);
            InOrder(sorted) && DistinctPairs(sorted) && forall ev :: ev in sorted <==> ev in paths
  {
    hide PairLess, Sort;
    var sorted := Sort(PairLess, paths);
    PairOrder();
    SortIsSorted(PairLess, paths);
    SameMembers(sorted, paths);
    SortKeepsDistinct(PairLess, paths);
    forall i, j | 0 <= i < j < |sorted|
      ensures sorted[i].source != sorted[j].source || sorted[i].target != sorted[j].target
    {
      assert sorted[i] in paths && sorted[j] in paths;
      var x :| 0 <= x < |paths| && paths[x] == sorted[i];
      var y :| 0 <= y < |paths| && paths[y] == sorted[j];
      assert sorted[i] != sorted[j];
    }
    assert InOrder(sorted) by {
      forall i, j | 0 <= i < j < |sorted| ensures PairLess(sorted[i], sorted[j]) {
        PairsCompare(sorted[i], sorted[j]);
      }
      PairsInOrder(sorted);
    }
  }

  lemma PairsInOrder(paths: seq<PathEvidence>)
    requires forall i, j :: 0 <= i < j < |paths| ==> PairLess(paths[i], paths[j])
    ensures InOrder(paths)
  {
    hide PairLess, NodeLess;
    forall i, j | 0 <= i < j < |paths|
      ensures NodeLess(paths[i].source, paths[j].source) ||
              (paths[i].source == paths[j].source && NodeLess(paths[i].target, paths[j].target))
    {
      PairFieldsDecide(paths[i], paths[j]);
    }
  }

  lemma PairsCompare(a: PathEvidence, b: PathEvidence)
    ensures PairLess(a, b) || PairLess(b, a) || (a.source == b.source && a.target == b.target)
  {
    hide PairKey;
    KeyOrder();
    if PairKey(a) == PairKey(b) { PairKeyInjective(a, b); }
  }

  function ObservationKey(o: Observation): Key {
    [Text(o.kind), Text(o.path), Text(o.digest), Text(o.rule), Text(o.evidence)]
  }

  predicate ObservationLess(a: Observation, b: Observation) { KeyLess(ObservationKey(a), ObservationKey(b)) }

  /** Observations compare by kind, path, digest, rule and evidence: the first that differs decides. */
  lemma ObservationFieldsDecide(a: Observation, b: Observation)
    ensures ObservationLess(a, b) <==>
            if a.kind != b.kind then StringLess(a.kind, b.kind)
            else if a.path != b.path then StringLess(a.path, b.path)
            else if a.digest != b.digest then StringLess(a.digest, b.digest)
            else if a.rule != b.rule then StringLess(a.rule, b.rule)
            else StringLess(a.evidence, b.evidence)
  {
    hide StringLess, KeyLess;
    var k, l := ObservationKey(a), ObservationKey(b);
    assert k[0..] == k && l[0..] == l;
    DecidesAt(k, l, 0);
    FourDecide(k[1..], l[1..]);
  }

  lemma ObservationOrder()
    ensures StrictTotal(ObservationLess)
  {
    KeyOrder();
    forall a: Observation, b: Observation ensures ObservationLess(a, b) || a == b || ObservationLess(b, a) {
      var ka, kb := ObservationKey(a), ObservationKey(b);
      if ka == kb { assert ka[0] == kb[0] && ka[1] == kb[1] && ka[2] == kb[2] && ka[3] == kb[3] && ka[4] == kb[4]; }
    }
  }

  ghost predicate Repeated(groups: seq<seq<Observation>>) { exists k :: 0 <= k < |groups| && !NoDuplicates(groups[k]) }

  /** Each group is listed in order, a reordering of what was given. */
  ghost predicate Listed(groups: seq<seq<Observation>>, ordered: seq<seq<Observation>>) {
    && |ordered| == |groups|
    && forall k :: 0 <= k < |groups| ==>
       SortedBy(ObservationLess, ordered[k]) && multiset(ordered[k]) == multiset(groups[k])
  }

  /** Sort one group of observations; a repeated one is refused. */
  method OrderGroup(values: seq<Observation>) returns (ok: bool, ordered: seq<Observation>)
    ensures ok <==> NoDuplicates(values)
    ensures SortedBy(ObservationLess, ordered) && multiset(ordered) == multiset(values)
  {
    hide ObservationLess, Sort;
    ordered := Sort(ObservationLess, values);
    ObservationOrder();
    TotalIsWeak(ObservationLess);
    SortIsSorted(ObservationLess, values);
    SortKeepsDistinct(ObservationLess, values);
    NeighboursRepeat(ObservationLess, ordered);
    ok := forall i :: 0 <= i < |ordered| - 1 ==> ordered[i] != ordered[i + 1];
  }

  /** Sort every group; refused exactly when some group repeats an observation. */
  method OrderObservations(groups: seq<seq<Observation>>) returns (ok: bool, ordered: seq<seq<Observation>>)
    ensures ok <==> !Repeated(groups)
    ensures ok ==> Listed(groups, ordered)
  {
    hide NoDuplicates, SortedBy;
    ordered := [];
    for i := 0 to |groups|
      invariant Listed(groups[..i], ordered) && forall k :: 0 <= k < i ==> NoDuplicates(groups[k])
    {
      var fine, group := OrderGroup(groups[i]);
      if !fine { return false, ordered; }
      ordered := ordered + [group];
    }
    assert groups[..|groups|] == groups;
    ok := true;
  }

  /** Assess one graph. A verdict that is returned is exact, rests on a least
      call chain for every offending pair, and no unresolved call can escape it;
      and each refusal has exactly its cause. */
  method Assess(
      g: Graph, catalog: set<NodeId>, declared: Option<string>, observed: seq<seq<Observation>>, limits: Limits)
    returns (a: Assessment)
    requires forall i, j :: 0 <= i < j < |g.nodes| ==> g.nodes[i].id != g.nodes[j].id
    requires NoDuplicates(g.edges)
    ensures a.Assessed? ==> (a.status.Incompatible? <==> BlocksAsync(g, catalog))
    ensures a.Assessed? ==>
            (a.status.UnknownStatus? <==>
                !BlocksAsync(g, catalog) && (EscapesAsync(g, catalog) || a.concurrency == "unknown"))
    ensures a.Assessed? ==>
            Sound(g, catalog, a.paths) && Thorough(g, catalog, a.paths) && DistinctPairs(a.paths) && InOrder(a.paths)
    ensures a.Assessed? ==> Some(a.concurrency) == Concurrency(g, declared) && Listed(observed, a.observations)
    ensures a == Refused(BudgetRefusal) <==>
            OverLimits(g, limits) || (!DanglingCall(g) && !CoverageGap(g) && OverReach(g, catalog, limits))
    ensures a == Refused(InputRefusal) <==>
            !OverLimits(g, limits) &&
            (DanglingCall(g) || CoverageGap(g) ||
             (!OverReach(g, catalog, limits) && (Repeated(observed) || Concurrency(g, declared).None?)))
  {
    hide BlocksAsync, EscapesAsync, Sound, Thorough, CoverageGap, DanglingCall, AsyncRoot, Ordered, Adjacent,
         Gathered, Concurrency, FromRoots;
    hide OverReach, TooDeep, Justified, DistinctPairs, AsyncCount, InOrder, Listed, Repeated, Sort, PairLess;
    if limits.maxRoots <= 0 || limits.maxNodes <= 0 || limits.maxEdges <= 0 || limits.maxPathLength <= 0 ||
        limits.maxPaths <= 0 {
      return Refused(BudgetRefusal);
    }
    if |g.nodes| > limits.maxNodes || |g.edges| > limits.maxEdges { return Refused(BudgetRefusal); }
    var roots := AsyncRoots(g);
    if |roots| > limits.maxRoots { return Refused(BudgetRefusal); }
    var wellFormed, adj := BuildAdjacency(g);
    if !wellFormed { return Refused(InputRefusal); }
    var seen := ReachableSources(adj, roots);
    GapsAgree(g, adj, roots, seen);
    if exists k :: 0 <= k < |g.unresolved| && g.unresolved[k].kind.Calls? && g.unresolved[k].source in seen {
      var k :| 0 <= k < |g.unresolved| && g.unresolved[k].kind.Calls? && g.unresolved[k].source in seen;
      assert g.unresolved[k] in g.unresolved;
      return Refused(InputRefusal);
    }
    var ok, paths := GatherEvidence(adj, catalog, roots, limits);
    if ok { GatheredMeans(g, adj, catalog, roots, paths); }
    GivesUpExactly(g, adj, catalog, roots, limits, ok, paths);
    if !ok { return Refused(BudgetRefusal); }
    var ordered := Sort(PairLess, paths);
    DistinctSorts(paths);
    SameEvidence(g, catalog, paths, ordered);
    var distinct, observations := OrderObservations(observed);
    if !distinct { return Refused(InputRefusal); }
    var concurrency := Concurrency(g, declared);
    if concurrency.None? { return Refused(InputRefusal); }
    VerdictIsExact(g, catalog, ordered, concurrency.value);
    return Assessed(concurrency.value, ordered, observations, Verdict(ordered, concurrency.value));
  }

  /** Reordering evidence changes nothing of what it shows. */
  lemma SameEvidence(g: Graph, catalog: set<NodeId>, paths: seq<PathEvidence>, others: seq<PathEvidence>)
    requires Sound(g, catalog, paths) && Thorough(g, catalog, paths) && forall ev :: ev in others <==> ev in paths
    ensures Sound(g, catalog, others) && Thorough(g, catalog, others)
  {
    hide AsyncRoot, LeastChain, TargetStatus, Reaches;
    forall r, t | AsyncRoot(g, r) && Reaches(g, r, t) && t != r && TargetStatus(catalog, t).Some?
      ensures exists ev :: ev in others && ev.source == r && ev.target == t
    {
      var ev :| ev in paths && ev.source == r && ev.target == t;
      assert ev in others;
    }
  }
}
