/** What every iteration of the walk keeps, whatever the budget and whatever is
    found: the depth discipline of the heap, and the bookkeeping by which
    nothing reached is lost. */
module WalkInvariant {
  import opened Ordering
  import opened GraphModel
  import opened OwnerIndex
  import opened Walk

  // ----- Facts about the graph views -----

  ghost predicate Lawful(p: Problem) {
    && (forall n, e :: e in Outgoing(p, n) ==> e.source == n && e.kind.Runtime())
    && (forall n :: NoDuplicates(Outgoing(p, n)))
    && (forall a, b, c :: b in Nested(p, a) && c in Nested(p, b) ==> c in Nested(p, a))
    && (forall a :: a !in Nested(p, a))
    && (forall e :: e in ImportEdges(p) ==> e.kind.Imports?)
  }

  lemma {:induction false} OutgoingAmongMembers(edges: seq<Edge>, n: NodeId, e: Edge)
    ensures e in OutgoingAmong(edges, n) <==> e in edges && e.kind.Runtime() && e.source == n
  {
    if edges != [] {
      OutgoingAmongMembers(edges[..|edges| - 1], n, e);
      assert edges == edges[..|edges| - 1] + [edges[|edges| - 1]];
    }
  }

  lemma {:induction false} OutgoingAmongDistinct(edges: seq<Edge>, n: NodeId)
    requires NoDuplicates(edges)
    ensures NoDuplicates(OutgoingAmong(edges, n))
  {
    if edges != [] {
      var front := edges[..|edges| - 1];
      OutgoingAmongDistinct(front, n);
      OutgoingAmongMembers(front, n, edges[|edges| - 1]);
    }
  }

  lemma {:induction false} ImportsAmongMembers(edges: seq<Edge>, e: Edge)
    ensures e in ImportsAmong(edges) <==> e in edges && e.kind.Imports?
  {
    if edges != [] {
      ImportsAmongMembers(edges[..|edges| - 1], e);
      assert edges == edges[..|edges| - 1] + [edges[|edges| - 1]];
    }
  }

  lemma {:induction false} UnresolvedAmongMembers(items: seq<UnresolvedEdge>, n: NodeId, u: UnresolvedEdge)
    ensures u in UnresolvedAmong(items, n) <==> u in items && (u.kind.Runtime() || u.kind.Imports?) && u.source == n
  {
    if items != [] {
      UnresolvedAmongMembers(items[..|items| - 1], n, u);
      assert items == items[..|items| - 1] + [items[|items| - 1]];
    }
  }

  lemma NestedIsOwned(p: Problem, n: NodeId, c: NodeId)
    ensures c in Nested(p, n) <==> c in NestedOwners(p.graph, n)
    ensures c in Nested(p, n) <==> Inside(p.graph, c, n)
  {
    SameMembers(Nested(p, n), NestedOwners(p.graph, n));
    NestedMembers(p.graph, n, c);
  }

  lemma WellFormedIsLawful(p: Problem)
    requires WellFormed(p.graph)
    ensures Lawful(p)
  {
    EdgesDistinct(p.graph);
    forall n, e | e in Outgoing(p, n)
      ensures e.source == n && e.kind.Runtime()
    {
      OutgoingAmongMembers(p.graph.edges, n, e);
    }
    forall n ensures NoDuplicates(Outgoing(p, n)) { OutgoingAmongDistinct(p.graph.edges, n); }
    forall a, b, c | b in Nested(p, a) && c in Nested(p, b) ensures c in Nested(p, a) {
      NestedIsOwned(p, a, b);
      NestedIsOwned(p, b, c);
      NestedIsOwned(p, a, c);
      NestedTransitive(p.graph, a, b, c);
    }
    forall a ensures a !in Nested(p, a) {
      NestedIsOwned(p, a, a);
      NestedIrreflexive(p.graph, a);
    }
    forall e | e in ImportEdges(p) ensures e.kind.Imports? { ImportsAmongMembers(p.graph.edges, e); }
  }

  // ----- Chains: how a node is reached -----

  /** A hop into a nested owner costs nothing; following an included runtime edge costs one. */
  datatype Hop = Into(owner: NodeId, child: NodeId) | Follow(edge: Edge) {
    function From(): NodeId { if Into? then owner else edge.source }
    function To(): NodeId { if Into? then child else edge.target }
    function Cost(): nat { if Into? then 0 else 1 }
    ghost predicate Legal(p: Problem) {
      match this
      case Into(a, c) => Inside(p.graph, c, a)
      case Follow(e) =>
        && e in p.graph.edges && e.kind in {Calls, Instantiates, Reads, Inherits, Raises}
        && e.target.origin == Donor && e.target !in p.rules
    }
  }

  /** The hops of the graph are those of the walk's tables. */
  lemma LegalExactly(p: Problem, hop: Hop)
    ensures hop.Legal(p) <==>
            match hop
            case Into(a, c) => c in Nested(p, a)
            case Follow(e) => e in Outgoing(p, e.source) && Includes(p, e.target)
  {
    hide Nested, Inside;
    match hop
    case Into(a, c) => NestedIsOwned(p, a, c);
    case Follow(e) => OutgoingAmongMembers(p.graph.edges, e.source, e);
  }

  ghost predicate Chain(p: Problem, hops: seq<Hop>, n: NodeId) {
    if hops == [] then n == p.seed
    else
      var last := hops[|hops| - 1];
      last.Legal(p) && last.To() == n && Chain(p, hops[..|hops| - 1], last.From())
  }

  function Cost(hops: seq<Hop>): nat {
    if hops == [] then 0 else Cost(hops[..|hops| - 1]) + hops[|hops| - 1].Cost()
  }

  ghost predicate ReachedAt(p: Problem, n: NodeId, cost: nat) {
    exists hops :: Chain(p, hops, n) && Cost(hops) == cost
  }

  lemma SeedReached(p: Problem)
    ensures ReachedAt(p, p.seed, 0)
  {
    assert Chain(p, [], p.seed) && Cost([]) == 0;
  }

  lemma HopReached(p: Problem, hop: Hop, cost: nat)
    requires hop.Legal(p) && ReachedAt(p, hop.From(), cost)
    ensures ReachedAt(p, hop.To(), cost + hop.Cost())
  {
    var hops :| Chain(p, hops, hop.From()) && Cost(hops) == cost;
    var longer := hops + [hop];
    assert longer[..|longer| - 1] == hops;
    assert Chain(p, longer, hop.To()) && Cost(longer) == cost + hop.Cost();
  }

  // ----- The invariants, over what the lists of a state contain -----

  datatype View = View(
    members: set<NodeId>, visited: map<NodeId, nat>, queue: set<Entry>, edges: set<Edge>,
    blockers: set<Blocker>, frontier: set<NodeId>)

  /** The runtime edges examined so far. */
  function Examined(traversed: seq<EdgeEvidence>): set<Edge> {
    set t | t in traversed && t.edge.kind.Runtime() :: t.edge
  }

  function ViewOf(w: State): View {
    View((set m | m in w.members :: m.node), w.visited, (set q | q in w.queue), Examined(w.traversed),
         (set b | b in w.blockers), (set f | f in w.frontier :: f.node))
  }

  /** A queued entry stands for the seed, or for an included edge of a visited
      node, at exactly one more than that node's depth. */
  ghost predicate Queued(p: Problem, visited: map<NodeId, nat>, q: Entry) {
    match q.incoming
    case None => q.depth == 0 && q.node == p.seed
    case Some(e) =>
      && e.target == q.node && e in Outgoing(p, e.source) && Includes(p, e.target)
      && e.source in visited && q.depth == visited[e.source] + 1
  }

  /** Depth `d` separates what has been visited from what is queued. */
  ghost predicate Depths(p: Problem, v: View, d: nat) {
    && (forall n :: n in v.visited ==> v.visited[n] <= d)
    && (forall n :: n in v.visited ==> ReachedAt(p, n, v.visited[n]))
    && (forall q :: q in v.queue ==> d <= q.depth && Queued(p, v.visited, q))
  }

  ghost predicate NodeRejected(p: Problem, v: View, n: NodeId) {
    Refusal(p, n).Some? && exists incoming :: Rejected(SourceRejection(p, n, incoming)) in v.blockers
  }

  /** The node's own expansion was given up openly: it, or the definition around it, is on the frontier. */
  ghost predicate Deferred(p: Problem, v: View, n: NodeId) {
    exists f :: f in v.frontier && (n == f || n in Nested(p, f))
  }

  ghost predicate SameDepth(v: View, m: NodeId, n: NodeId) {
    m in v.visited && n in v.visited && v.visited[m] == v.visited[n]
  }

  /** A visited node is a member, nested in a member of its depth, refused, or on the frontier. */
  ghost predicate Accounted(p: Problem, v: View, n: NodeId) {
    || n in v.members
    || (exists m :: m in v.members && n in Nested(p, m) && SameDepth(v, m, n))
    || NodeRejected(p, v, n)
    || n in v.frontier
  }

  /** The target of an examined included edge is visited no deeper than one
      below its source, or queued at that depth, or on the frontier. */
  ghost predicate Followed(v: View, e: Edge) {
    && e.source in v.visited
    && var depth := v.visited[e.source] + 1;
       || (e.target in v.visited && v.visited[e.target] <= depth)
       || (exists q :: q in v.queue && q.node == e.target && q.depth == depth)
       || e.target in v.frontier
  }

  ghost predicate SeedHeld(p: Problem, v: View) {
    || (p.seed in v.visited && v.visited[p.seed] == 0)
    || (exists q :: q in v.queue && q.node == p.seed && q.depth == 0)
  }

  /** What an iteration still has in hand: nodes just reached, edges not yet
      examined, and the remaining nested owners of the member `owner`. */
  datatype Hand = Hand(reached: set<NodeId>, pending: set<Edge>, owner: NodeId, todo: set<NodeId>)

  /** Nothing reached is lost, except what is still in hand. */
  ghost predicate Kept(p: Problem, v: View, h: Hand) {
    && SeedHeld(p, v)
    && (forall m :: m in v.members ==> m in v.visited)
    && (forall n :: n in v.visited && n !in h.reached ==> Accounted(p, v, n))
    && (forall e :: e in v.edges ==> e.source in v.visited && e in Outgoing(p, e.source))
    && (forall e :: e in v.edges && Includes(p, e.target) ==> Followed(v, e))
    && (forall e :: e in v.edges && Rejects(p, e) ==> Rejected(Classify(p, e.target, Some(e))) in v.blockers)
    && (forall n, e :: n in v.visited && n !in h.reached && e in Outgoing(p, n) ==>
          e in v.edges || e in h.pending || NodeRejected(p, v, n) || Deferred(p, v, n))
    && (forall n, u :: n in v.visited && n !in h.reached && u in UnresolvedOf(p, n) ==>
          Unresolved(u) in v.blockers || NodeRejected(p, v, n) || n in v.frontier)
    && (forall m, c :: m in v.members && c in Nested(p, m) ==>
          (c in v.visited && v.visited[c] <= v.visited[m]) || m in v.frontier || (m == h.owner && c in h.todo))
  }

  predicate Rejects(p: Problem, e: Edge) { TurnsAway(p, e.target) }

  function Idle(p: Problem): Hand { Hand({}, {}, p.seed, {}) }

  // ----- Transitions of the view -----

  /** Recording more blockers or frontier entries loses nothing. */
  lemma KeptGrows(p: Problem, v: View, h: Hand, v': View)
    requires Kept(p, v, h)
    requires v' == v.(blockers := v'.blockers, frontier := v'.frontier)
    requires v.blockers <= v'.blockers && v.frontier <= v'.frontier
    ensures Kept(p, v', h)
  {
    hide Nested, Outgoing, UnresolvedOf, Refusal, Includes, Rejects, Classify;
    forall n | NodeRejected(p, v, n) ensures NodeRejected(p, v', n) {}
    forall n | Deferred(p, v, n) ensures Deferred(p, v', n) {}
    forall n | Accounted(p, v, n) ensures Accounted(p, v', n) {}
    forall e | Followed(v, e) ensures Followed(v', e) {}
  }

  /** Popping an entry and visiting its node, or finding it already visited no
      deeper, keeps every promise made by the popped entry. */
  lemma KeptPopped(p: Problem, v: View, e: Entry, v': View)
    requires Kept(p, v, Idle(p)) && e in v.queue
    requires forall n :: n in v.visited ==> v.visited[n] <= e.depth
    requires v'.queue <= v.queue <= v'.queue + {e}
    requires v' == v.(queue := v'.queue, visited := if e.node in v.visited
             then v.visited else v.visited[e.node := e.depth])
    ensures Kept(p, v', Idle(p).(reached := if e.node in v.visited then {} else {e.node}))
  {
    hide Nested, Outgoing, UnresolvedOf, Refusal, Includes, Rejects, Classify;
    forall n | NodeRejected(p, v, n) ensures NodeRejected(p, v', n) {}
    forall n | Deferred(p, v, n) ensures Deferred(p, v', n) {}
    forall n | Accounted(p, v, n) ensures Accounted(p, v', n) {}
    forall x | Followed(v, x) ensures Followed(v', x) {
      var depth := v.visited[x.source] + 1;
      if !(x.target in v.visited && v.visited[x.target] <= depth) && x.target !in v.frontier {
        var q :| q in v.queue && q.node == x.target && q.depth == depth;
        if q != e { assert q in v'.queue; }
      }
    }
    if !(p.seed in v.visited && v.visited[p.seed] == 0) {
      var q :| q in v.queue && q.node == p.seed && q.depth == 0;
      if q != e { assert q in v'.queue; }
    }
  }

  /** A refused node is accounted for by its recorded rejection. */
  lemma KeptRefused(p: Problem, v: View, n: NodeId, incoming: Option<Edge>)
    requires Kept(p, v, Idle(p).(reached := {n})) && Refusal(p, n).Some?
    ensures Kept(p, v.(blockers := v.blockers + {Rejected(SourceRejection(p, n, incoming))}), Idle(p))
  {
    hide Nested, Outgoing, UnresolvedOf, Refusal, Includes, Rejects, Classify;
    var v' := v.(blockers := v.blockers + {Rejected(SourceRejection(p, n, incoming))});
    KeptGrows(p, v, Idle(p).(reached := {n}), v');
    assert NodeRejected(p, v', n);
  }

  /** A node over budget is accounted for by the frontier. */
  lemma KeptOversized(p: Problem, v: View, n: NodeId)
    requires Kept(p, v, Idle(p).(reached := {n}))
    ensures Kept(p, v.(frontier := v.frontier + {n}), Idle(p))
  {
    hide Nested, Outgoing, UnresolvedOf, Refusal, Includes, Rejects, Classify;
    var v' := v.(frontier := v.frontier + {n});
    KeptGrows(p, v, Idle(p).(reached := {n}), v');
    assert Deferred(p, v', n);
  }

  function UnresolvedBlockers(p: Problem, n: NodeId): set<Blocker> {
    set u | u in UnresolvedOf(p, n) :: Unresolved(u)
  }

  function EdgeSet(edges: seq<Edge>): set<Edge> { set e | e in edges }

  /** An admitted node leaves its edges and nested owners in hand. */
  lemma KeptAdmitted(p: Problem, v: View, n: NodeId)
    requires Kept(p, v, Idle(p).(reached := {n})) && n in v.visited
    ensures Kept(p, v.(members := v.members + {n}, blockers := v.blockers + UnresolvedBlockers(p, n)),
                 Hand({}, EdgeSet(Outgoing(p, n)), n, set c | c in Nested(p, n)))
  {
    hide Nested, Outgoing, UnresolvedOf, Refusal, Includes, Rejects, Classify;
    var v1 := v.(blockers := v.blockers + UnresolvedBlockers(p, n));
    KeptGrows(p, v, Idle(p).(reached := {n}), v1);
    var v' := v1.(members := v.members + {n});
    forall x | NodeRejected(p, v1, x) ensures NodeRejected(p, v', x) {}
    forall x | Deferred(p, v1, x) ensures Deferred(p, v', x) {}
    forall x | Accounted(p, v1, x) ensures Accounted(p, v', x) {}
    forall e | Followed(v1, e) ensures Followed(v', e) {}
    forall u | u in UnresolvedOf(p, n) ensures Unresolved(u) in v'.blockers {}
  }

  /** A newly visited nested owner belongs to its member, and its edges come to hand. */
  lemma KeptNestedNew(p: Problem, v: View, h: Hand, c: NodeId)
    requires Kept(p, v, h) && h.reached == {}
    requires h.owner in v.members && c in Nested(p, h.owner) && c !in v.visited
    ensures Kept(p, v.(visited := v.visited[c := v.visited[h.owner]],
            blockers := v.blockers + UnresolvedBlockers(p, c)),
                 h.(pending := h.pending + EdgeSet(Outgoing(p, c)), todo := h.todo - {c}))
  {
    hide Nested, Outgoing, UnresolvedOf, Refusal, Includes, Rejects, Classify, NodeRejected, Deferred, Accounted,
         Followed;
    var v1 := v.(blockers := v.blockers + UnresolvedBlockers(p, c));
    KeptGrows(p, v, h, v1);
    var v' := v1.(visited := v.visited[c := v.visited[h.owner]]);
    VisitTransfers(p, v1, c, h.owner);
    forall u | u in UnresolvedOf(p, c) ensures Unresolved(u) in v'.blockers {}
  }

  /** Visiting a nested owner at its member's depth loses nothing of what accounted for the rest. */
  lemma VisitTransfers(p: Problem, v: View, c: NodeId, owner: NodeId)
    requires owner in v.members && owner in v.visited && c in Nested(p, owner) && c !in v.visited
    ensures var v' := v.(visited := v.visited[c := v.visited[owner]]);
            && (forall x :: NodeRejected(p, v, x) ==> NodeRejected(p, v', x))
            && (forall x :: Deferred(p, v, x) ==> Deferred(p, v', x))
            && (forall x :: Accounted(p, v, x) ==> Accounted(p, v', x))
            && Accounted(p, v', c)
            && (forall e :: Followed(v, e) ==> Followed(v', e))
  {
    hide Nested, Outgoing, UnresolvedOf, Refusal, Includes, Rejects, Classify;
    var v' := v.(visited := v.visited[c := v.visited[owner]]);
    forall x | NodeRejected(p, v, x) ensures NodeRejected(p, v', x) {}
    forall x | Accounted(p, v, x) ensures Accounted(p, v', x) {}
    assert SameDepth(v', owner, c);
  }

  lemma KeptNestedOld(p: Problem, v: View, h: Hand, c: NodeId)
    requires Kept(p, v, h) && h.owner in v.members
    requires c in v.visited && v.visited[c] <= v.visited[h.owner]
    ensures Kept(p, v, h.(todo := h.todo - {c}))
  {
    hide Nested, Outgoing, UnresolvedOf, Refusal, Includes, Rejects, Classify, NodeRejected, Deferred, Accounted,
         Followed;
  }

  /** Putting the member itself on the frontier excuses everything in hand. */
  lemma KeptGivenUp(p: Problem, v: View, h: Hand)
    requires Kept(p, v, h) && h.reached == {} && h.owner in v.frontier
    requires forall e :: e in h.pending ==> e.source == h.owner || e.source in Nested(p, h.owner)
    requires Lawful(p)
    ensures Kept(p, v, Idle(p))
  {
    hide Nested, Outgoing, UnresolvedOf, Refusal, Includes, Rejects, Classify, NodeRejected, Accounted, Followed;
    forall n, e | n in v.visited && e in Outgoing(p, n) && e in h.pending ensures Deferred(p, v, n) {
      assert e.source == n;
    }
  }

  /** Examining an edge takes it out of hand once its target is provided for. */
  lemma KeptExamined(p: Problem, v: View, h: Hand, e: Edge, v': View)
    requires Kept(p, v, h)
    requires e.source in v.visited && e in Outgoing(p, e.source)
    requires v' == v.(edges := v.edges + {e}, blockers := v'.blockers, frontier := v'.frontier, queue := v'.queue)
    requires v.blockers <= v'.blockers && v.frontier <= v'.frontier && v.queue <= v'.queue
    requires Includes(p, e.target) ==> Followed(v', e)
    requires Rejects(p, e) ==> Rejected(Classify(p, e.target, Some(e))) in v'.blockers
    ensures Kept(p, v', h.(pending := h.pending - {e}))
  {
    hide Nested, Outgoing, UnresolvedOf, Refusal, Includes, Rejects, Classify;
    var v1 := v.(blockers := v'.blockers, frontier := v'.frontier);
    KeptGrows(p, v, h, v1);
    forall n | NodeRejected(p, v1, n) ensures NodeRejected(p, v', n) {}
    forall n | Deferred(p, v1, n) ensures Deferred(p, v', n) {}
    forall n | Accounted(p, v1, n) ensures Accounted(p, v', n) {}
    forall x | Followed(v1, x) ensures Followed(v', x) {}
  }
}
