/** What the walk promises of its result. */
module WalkTheorems {
  import opened Ordering
  import opened GraphModel
  import opened OwnerIndex
  import opened Walk
  import opened WalkInvariant
  import opened WalkPreserves
  import opened WalkBudgets
  import opened WalkCharges

  // ----- The closure a complete walk computes -----

  /** Closed under lexical nesting and under edges of the five runtime kinds to donor nodes that no rule names. */
  ghost predicate Closed(p: Problem, s: set<NodeId>) {
    && (forall n, c :: n in s && Inside(p.graph, c, n) ==> c in s)
    && (forall e :: e in p.graph.edges && e.source in s && e.target.origin == Donor && e.target !in p.rules ==>
          e.kind in {Calls, Instantiates, Reads, Inherits, Raises} ==> e.target in s)
  }

  ghost predicate LeastClosed(p: Problem, s: set<NodeId>) {
    && p.seed in s && Closed(p, s)
    && (forall t: set<NodeId> {:trigger Closed(p, t)} :: p.seed in t && Closed(p, t) ==> s <= t)
  }

  /** A member, or an owner nested in one. */
  ghost predicate InSpan(p: Problem, members: seq<Member>, n: NodeId) {
    exists m :: m in members && (n == m.node || Inside(p.graph, n, m.node))
  }

  lemma OutgoingMembers(p: Problem, n: NodeId, e: Edge)
    ensures e in Outgoing(p, n) <==> e in p.graph.edges && e.kind.Runtime() && e.source == n
  {
    OutgoingAmongMembers(p.graph.edges, n, e);
  }

  lemma {:induction false} ChainStaysInside(p: Problem, hops: seq<Hop>, n: NodeId, s: set<NodeId>)
    requires Chain(p, hops, n) && p.seed in s && Closed(p, s)
    ensures n in s
    decreases |hops|
  {
    hide Nested, Outgoing, Inside;
    if hops != [] {
      var last := hops[|hops| - 1];
      ChainStaysInside(p, hops[..|hops| - 1], last.From(), s);
    }
  }

  /** The facts a complete verdict rests on. */
  lemma CompleteFacts(p: Problem, b: Budget) returns (d: nat)
    requires WellFormed(p.graph) && b.Valid() && Compute(p, b).status.Complete?
    ensures var o := Compute(p, b);
            && Lawful(p) && Inv(p, o.walk, d) && Bounded(p, b, o.walk) && Frugal(p, b, o.walk)
            && o.walk.blockers == [] && o.blockers == [] && !o.walk.budgetHit && o.walk.queue == [] &&
               o.walk.frontier == []
            && o.frontier == [] && Certified(p)
            && ValidSeed(p) && o.walk == Run(p, b, Start(p, b))
  {
    hide Inv, Frugal, Lawful;
    WellFormedIsLawful(p);
    StartKeeps(p, b);
    StartWithin(p, b);
    d := RunKeeps(p, b, Start(p, b), 0);
    RunWithin(p, b, Start(p, b), 0);
    var w := Run(p, b, Start(p, b));
    assert w.queue == [];
    assert Leftover(w.visited, w.queue) == [];
  }

  /** The walk's final picture when nothing was rejected, deferred or left queued. */
  ghost predicate Settled(p: Problem, v: View) {
    && p.seed in v.visited && v.visited[p.seed] == 0
    && (forall n :: n in v.visited ==> n in v.members || exists m :: m in v.members && n in Nested(p, m))
    && (forall m :: m in v.members ==> m in v.visited)
    && (forall n, c :: n in v.visited && c in Nested(p, n) ==> c in v.visited && v.visited[c] <= v.visited[n])
    && (forall n, e :: n in v.visited && e in Outgoing(p, n) ==> !Rejects(p, e))
    && (forall n, e :: n in v.visited && e in Outgoing(p, n) && Includes(p, e.target) ==>
          e.target in v.visited && v.visited[e.target] <= v.visited[n] + 1)
    && (forall n, u :: n in v.visited ==> u !in UnresolvedOf(p, n))
  }

  /** A view with nothing rejected or deferred. */
  ghost predicate Calm(p: Problem, v: View) {
    Lawful(p) && Kept(p, v, Idle(p)) && v.blockers == {} && v.frontier == {}
  }

  /** A calm view with nothing left queued. */
  ghost predicate Quiet(p: Problem, v: View) { Calm(p, v) && v.queue == {} }

  lemma CalmMember(p: Problem, v: View, n: NodeId)
    requires Calm(p, v) && n in v.visited
    ensures n in v.members || exists m :: m in v.members && n in Nested(p, m) && SameDepth(v, m, n)
  {
    hide Nested, Outgoing, UnresolvedOf, Refusal, Includes, Rejects, Classify, Followed, Deferred, Lawful;
    assert Accounted(p, v, n);
  }

  lemma CalmNested(p: Problem, v: View, n: NodeId, c: NodeId)
    requires Calm(p, v) && n in v.visited && c in Nested(p, n)
    ensures c in v.visited && v.visited[c] <= v.visited[n]
  {
    hide Nested, Outgoing, UnresolvedOf, Refusal, Includes, Rejects, Classify, Followed, Deferred, Accounted,
         NodeRejected;
    CalmMember(p, v, n);
    if n !in v.members {
      var m :| m in v.members && n in Nested(p, m) && SameDepth(v, m, n);
      assert c in Nested(p, m);
    }
  }

  /** Every edge out of a visited node is examined, and its included target visited or queued in time. */
  lemma CalmEdge(p: Problem, v: View, n: NodeId, e: Edge)
    requires Calm(p, v) && n in v.visited && e in Outgoing(p, n)
    ensures e in v.edges && e.source == n && !Rejects(p, e)
    ensures Includes(p, e.target) ==> Followed(v, e)
  {
    hide Nested, Outgoing, UnresolvedOf, Refusal, Includes, Rejects, Classify, Accounted, Followed;
    assert e in v.edges && e.source == n;
  }

  lemma QuietEdge(p: Problem, v: View, n: NodeId, e: Edge)
    requires Quiet(p, v) && n in v.visited && e in Outgoing(p, n)
    ensures !Rejects(p, e)
    ensures Includes(p, e.target) ==> e.target in v.visited && v.visited[e.target] <= v.visited[n] + 1
  {
    hide Kept, Lawful, Outgoing, Rejects, Includes;
    CalmEdge(p, v, n, e);
  }

  lemma QuietResolved(p: Problem, v: View, n: NodeId, u: UnresolvedEdge)
    requires Quiet(p, v) && n in v.visited
    ensures u !in UnresolvedOf(p, n)
  {
    hide Nested, Outgoing, UnresolvedOf, Refusal, Includes, Rejects, Classify, Accounted, Followed, Deferred, Lawful;
    assert u in UnresolvedOf(p, n) ==> Unresolved(u) in v.blockers || NodeRejected(p, v, n) || n in v.frontier;
  }

  lemma KeptSettles(p: Problem, v: View)
    requires Quiet(p, v)
    ensures Settled(p, v)
  {
    hide Nested, Outgoing, UnresolvedOf, Includes, Rejects, Calm;
    assert p.seed in v.visited && v.visited[p.seed] == 0 by { QuietSeed(p, v); }
    assert forall m :: m in v.members ==> m in v.visited by { QuietSeed(p, v); }
    forall n | n in v.visited
      ensures n in v.members || exists m :: m in v.members && n in Nested(p, m)
    {
      CalmMember(p, v, n);
    }
    forall n, c | n in v.visited && c in Nested(p, n)
      ensures c in v.visited && v.visited[c] <= v.visited[n]
    {
      CalmNested(p, v, n, c);
    }
    forall n, e | n in v.visited && e in Outgoing(p, n)
      ensures !Rejects(p, e)
      ensures Includes(p, e.target) ==> e.target in v.visited && v.visited[e.target] <= v.visited[n] + 1
    {
      QuietEdge(p, v, n, e);
    }
    forall n, u | n in v.visited ensures u !in UnresolvedOf(p, n) { QuietResolved(p, v, n, u); }
  }

  lemma QuietSeed(p: Problem, v: View)
    requires Quiet(p, v)
    ensures p.seed in v.visited && v.visited[p.seed] == 0
    ensures forall m :: m in v.members ==> m in v.visited
  {
    hide Nested, Outgoing, UnresolvedOf, Refusal, Includes, Rejects, Classify, Accounted, Followed, Deferred,
         NodeRejected, Lawful;
  }

  lemma CompleteSettles(p: Problem, b: Budget)
    requires WellFormed(p.graph) && b.Valid() && Compute(p, b).status.Complete?
    ensures Settled(p, ViewOf(Compute(p, b).walk))
    ensures forall n :: n in Compute(p, b).walk.visited ==> ReachedAt(p, n, Compute(p, b).walk.visited[n])
  {
    hide Kept, Compute, Frugal, Bounded, ReachedAt, Lawful, Settled, Tally;
    var d := CompleteFacts(p, b);
    var v := ViewOf(Compute(p, b).walk);
    KeptSettles(p, v);
  }

  lemma SettledIsClosed(p: Problem, v: View)
    requires Settled(p, v)
    ensures Closed(p, v.visited.Keys)
  {
    hide Nested, Outgoing, UnresolvedOf, Inside, Rejects;
    forall n, c | n in v.visited.Keys && Inside(p.graph, c, n) ensures c in v.visited.Keys {
      NestedIsOwned(p, n, c);
    }
    forall e | e in p.graph.edges && e.kind.Runtime() && e.source in v.visited.Keys && Includes(p, e.target)
      ensures e.target in v.visited.Keys
    {
      OutgoingMembers(p, e.source, e);
    }
  }

  /** A complete walk visits exactly the least set containing the seed and closed
      under nesting and included runtime edges. */
  lemma CompleteIsLeastClosure(p: Problem, b: Budget)
    requires WellFormed(p.graph) && b.Valid() && Compute(p, b).status.Complete?
    ensures LeastClosed(p, Compute(p, b).walk.visited.Keys)
  {
    hide Compute, Includes;
    CompleteSettles(p, b);
    var w := Compute(p, b).walk;
    SettledIsClosed(p, ViewOf(w));
    forall t: set<NodeId> | p.seed in t && Closed(p, t) ensures w.visited.Keys <= t {
      forall n | n in w.visited.Keys ensures n in t {
        assert ReachedAt(p, n, w.visited[n]);
        var hops :| Chain(p, hops, n) && Cost(hops) == w.visited[n];
        ChainStaysInside(p, hops, n, t);
      }
    }
  }

  lemma SettledSpan(p: Problem, w: State, n: NodeId)
    requires Settled(p, ViewOf(w))
    ensures n in w.visited <==> InSpan(p, w.members, n)
  {
    hide Includes, Nested, Outgoing, Rejects, UnresolvedOf, NestedOwners;
    var v := ViewOf(w);
    if n in w.visited {
      if n in v.members {
        var m :| m in w.members && m.node == n;
        assert InSpan(p, w.members, n);
      } else {
        var a :| a in v.members && n in Nested(p, a);
        var m :| m in w.members && m.node == a;
        NestedIsOwned(p, a, n);
        assert InSpan(p, w.members, n);
      }
    }
    if InSpan(p, w.members, n) {
      var m :| m in w.members && (n == m.node || Inside(p.graph, n, m.node));
      assert m.node in v.members;
      NestedIsOwned(p, m.node, n);
    }
  }

  /** The visited set is the members together with the owners nested in them. */
  lemma CompleteSpan(p: Problem, b: Budget, n: NodeId)
    requires WellFormed(p.graph) && b.Valid() && Compute(p, b).status.Complete?
    ensures n in Compute(p, b).walk.visited <==> InSpan(p, Compute(p, b).walk.members, n)
  {
    hide Compute, Settled, InSpan;
    CompleteSettles(p, b);
    SettledSpan(p, Compute(p, b).walk, n);
  }

  lemma SettledIsClean(p: Problem, v: View)
    requires Settled(p, v)
    ensures forall e :: e in p.graph.edges && e.kind.Runtime() && e.source in v.visited ==> !Rejects(p, e)
    ensures forall u :: u in p.graph.unresolved && (u.kind.Runtime() || u.kind.Imports?) ==> u.source !in v.visited
  {
    hide Rejects, Nested, Outgoing, Includes;
    forall e | e in p.graph.edges && e.kind.Runtime() && e.source in v.visited ensures !Rejects(p, e) {
      OutgoingMembers(p, e.source, e);
    }
    forall u | u in p.graph.unresolved && (u.kind.Runtime() || u.kind.Imports?) ensures u.source !in v.visited {
      UnresolvedAmongMembers(p.graph.unresolved, u.source, u);
      assert u in UnresolvedOf(p, u.source);
    }
  }

  /** Nothing in a complete closure is unresolved, and no runtime edge out of it is rejected. */
  lemma CompleteIsClean(p: Problem, b: Budget)
    requires WellFormed(p.graph) && b.Valid() && Compute(p, b).status.Complete?
    ensures var w := Compute(p, b).walk;
            && (forall e :: e in p.graph.edges && e.kind != Imports && e.kind != TestedBy && e.source in w.visited ==>
                  !TurnsAway(p, e.target))
            && (forall u :: u in p.graph.unresolved && u.kind != TestedBy ==> u.source !in w.visited)
            && Compute(p, b).frontier == [] && Compute(p, b).blockers == []
  {
    hide Compute, TurnsAway, Settled, Inv, Lawful, Bounded, Frugal;
    var _ := CompleteFacts(p, b);
    CompleteSettles(p, b);
    SettledIsClean(p, ViewOf(Compute(p, b).walk));
  }

  // ----- Depth is distance -----

  lemma {:induction false} SettledBound(p: Problem, v: View, hops: seq<Hop>, n: NodeId)
    requires Settled(p, v) && Chain(p, hops, n)
    ensures n in v.visited && v.visited[n] <= Cost(hops)
    decreases |hops|
  {
    hide Nested, Outgoing, Includes, Rejects, UnresolvedOf;
    if hops != [] {
      SettledBound(p, v, hops[..|hops| - 1], hops[|hops| - 1].From());
      LegalExactly(p, hops[|hops| - 1]);
    }
  }

  /** In a complete walk the recorded depth of a node is its distance from the
      seed, counting included runtime edges as one and nesting as nothing; and
      every node with such a chain is visited. */
  lemma CompleteDepthIsDistance(p: Problem, b: Budget, n: NodeId)
    requires WellFormed(p.graph) && b.Valid() && Compute(p, b).status.Complete?
    ensures var visited := Compute(p, b).walk.visited;
            && (n in visited <==> exists hops :: Chain(p, hops, n))
            && (n in visited ==> ReachedAt(p, n, visited[n]) && forall hops :: Chain(p, hops, n) ==>
               visited[n] <= Cost(hops))
  {
    hide Compute, Settled;
    CompleteSettles(p, b);
    var w := Compute(p, b).walk;
    forall hops | Chain(p, hops, n) ensures n in w.visited && w.visited[n] <= Cost(hops) {
      SettledBound(p, ViewOf(w), hops, n);
    }
    if n in w.visited {
      assert ReachedAt(p, n, w.visited[n]);
      assert exists hops :: Chain(p, hops, n) && Cost(hops) == w.visited[n];
    }
  }

  // ----- Every run, whatever its verdict -----

  function FrontierNodes(frontier: seq<Frontier>): set<NodeId> { set f | f in frontier :: f.node }

  ghost predicate RefusalRecorded(p: Problem, o: Outcome, n: NodeId) {
    Refusal(p, n).Some? && exists incoming :: Rejected(SourceRejection(p, n, incoming)) in o.blockers
  }

  ghost predicate OnFrontier(p: Problem, o: Outcome, n: NodeId) {
    exists f :: f in FrontierNodes(o.frontier) && (n == f || n in Nested(p, f))
  }

  /** Nothing discovered is silently dropped: every visited node, every runtime
      edge and unresolved reference of a visited node, and every included target
      is either acted upon or shows up among the blockers or on the frontier. */
  ghost predicate NothingLost(p: Problem, o: Outcome) {
    var w := o.walk;
    var frontier := FrontierNodes(o.frontier);
    && (forall e :: e in Examined(w.traversed) && Includes(p, e.target) ==>
       e.target in w.visited || e.target in frontier)
    && (forall n :: n in w.visited ==> InSpan(p, w.members, n) || RefusalRecorded(p, o, n) || n in frontier)
    && (forall n, e :: n in w.visited && e in Outgoing(p, n) ==>
          e in Examined(w.traversed) || RefusalRecorded(p, o, n) || OnFrontier(p, o, n))
    && (forall n, u :: n in w.visited && u in UnresolvedOf(p, n) ==>
          Unresolved(u) in o.blockers || RefusalRecorded(p, o, n) || n in frontier)
    && (forall e :: e in Examined(w.traversed) && Rejects(p, e) ==>
       Rejected(Classify(p, e.target, Some(e))) in o.blockers)
    && (ValidSeed(p) ==> p.seed in w.visited || p.seed in frontier)
  }

  lemma ConcludeView(p: Problem, w: State)
    ensures var o, v := Conclude(p, w), ViewOf(w);
            && v.frontier <= FrontierNodes(o.frontier)
            && (forall q :: q in v.queue ==> q.node in FrontierNodes(o.frontier))
            && (forall b :: b in v.blockers ==> b in o.blockers)
            && o.walk == w
  {
    var o := Conclude(p, w);
    var rest := Leftover(w.visited, w.queue);
    assert forall f :: f in w.frontier ==> f in o.frontier;
    forall q | q in w.queue ensures q.node in FrontierNodes(o.frontier) {
      var k :| 0 <= k < |w.queue| && w.queue[k] == q;
      assert rest[k] in o.frontier && rest[k].node == q.node;
    }
  }

  lemma SpanOfMembers(p: Problem, w: State, n: NodeId)
    requires n in ViewOf(w).members ||
             exists m :: m in ViewOf(w).members && n in Nested(p, m) && SameDepth(ViewOf(w), m, n)
    ensures InSpan(p, w.members, n)
  {
    hide Nested, NestedOwners;
    if n in ViewOf(w).members {
      var m :| m in w.members && m.node == n;
    } else {
      var a :| a in ViewOf(w).members && n in Nested(p, a) && SameDepth(ViewOf(w), a, n);
      var m :| m in w.members && m.node == a;
      NestedIsOwned(p, a, n);
    }
  }

  lemma KeptIsNothingLost(p: Problem, w: State)
    requires Kept(p, ViewOf(w), Idle(p))
    ensures NothingLost(p, Conclude(p, w))
  {
    hide Nested, NestedOwners, Outgoing, UnresolvedOf, Refusal, Includes, Rejects, Classify, Conclude, InSpan,
         FrontierNodes;
    var o, v := Conclude(p, w), ViewOf(w);
    ConcludeView(p, w);
    forall n | NodeRejected(p, v, n) ensures RefusalRecorded(p, o, n) {}
    forall n | Deferred(p, v, n) ensures OnFrontier(p, o, n) {}
    forall n | n in w.visited
      ensures InSpan(p, w.members, n) || RefusalRecorded(p, o, n) || n in FrontierNodes(o.frontier)
    {
      assert Accounted(p, v, n);
      if !NodeRejected(p, v, n) && n !in v.frontier { SpanOfMembers(p, w, n); }
    }
    forall e | e in Examined(w.traversed) && Includes(p, e.target)
      ensures e.target in w.visited || e.target in FrontierNodes(o.frontier)
    {
      assert Followed(v, e);
    }
  }

  lemma NothingIsLost(p: Problem, b: Budget)
    requires WellFormed(p.graph)
    ensures NothingLost(p, Compute(p, b))
  {
    hide NothingLost, Inv, Lawful;
    if ValidSeed(p) {
      WellFormedIsLawful(p);
      StartKeeps(p, b);
      var d := RunKeeps(p, b, Start(p, b), 0);
      assert Kept(p, ViewOf(Run(p, b, Start(p, b))), Idle(p)) by { InvKept(p, Run(p, b, Start(p, b)), d); }
      KeptIsNothingLost(p, Run(p, b, Start(p, b)));
    } else {
      EmptyLosesNothing(p, Compute(p, b));
    }
  }

  lemma InvKept(p: Problem, w: State, d: nat)
    requires Inv(p, w, d)
    ensures Kept(p, ViewOf(w), Idle(p)) && Tally(w) && Depths(p, ViewOf(w), d)
  {
  }

  lemma EmptyLosesNothing(p: Problem, o: Outcome)
    requires !ValidSeed(p) && o.walk.visited == map[] && o.walk.traversed == []
    ensures NothingLost(p, o)
  {
    assert Examined(o.walk.traversed) == {};
  }

  // ----- The order and number of pops -----

  /** The depths at which the walk pops its entries, in order. */
  function Pops(p: Problem, b: Budget, w: State): seq<nat>
    decreases WorkLeft(b, w), MayRun(w)
  {
    if !Running(w) then []
    else
      StepSpends(p, b, w);
      [Popped(w).depth] + Pops(p, b, Step(p, b, w))
  }

  function RuntimeEdges(p: Problem): set<Edge> { set e | e in p.graph.edges && e.kind.Runtime() }

  lemma {:induction false} ExamineAllGrowth(p: Problem, b: Budget, w: State, d: nat, edges: seq<Edge>)
    ensures var w' := ExamineAll(p, b, w, d, edges);
            |w'.queue| + w.edgesExamined <= |w.queue| + w'.edgesExamined
    decreases |edges|
  {
    hide Classify, Exhausted, SupportAll;
    if edges != [] {
      var e := edges[0];
      if e.provenance.binding.Some? {
        SupportAllCharges(p, Record(p, w, d, e), d + 1, e.provenance.binding.value, ImportEdges(p));
        SupportAllCharges(p, Enqueue(Record(p, w, d, e), d, e), d + 1, e.provenance.binding.value, ImportEdges(p));
      }
      ExamineAllGrowth(p, b, ExamineOne(p, b, w, d, e), d, edges[1..]);
    }
  }

  /** A step queues no more entries than it examines edges, beyond the one it pops. */
  lemma StepGrowth(p: Problem, b: Budget, w: State)
    requires Running(w) && !Step(p, b, w).budgetHit
    ensures |Step(p, b, w).queue| + 1 + w.edgesExamined <= |w.queue| + Step(p, b, w).edgesExamined
  {
    hide Least, Oversized, Refusal, VisitAll, ExamineAll, Nested, EdgesOf, Sort, UnresolvedOf;
    var e, r := Popped(w), Rest(w);
    var at := Frontier(EntryDepth(w.visited, e.incoming), e.node, e.incoming);
    var w1 := r.(visited := r.visited[e.node := at.depth]);
    if Refusal(p, at.node).None? {
      var w2 := Admit(p, w1, MemberOf(p, at.node));
      VisitAllFrame(p, b, w2, at, [at.node], Nested(p, at.node));
      var (w3, owners) := VisitAll(p, b, w2, at, [at.node], Nested(p, at.node));
      ExamineAllGrowth(p, b, w3, at.depth, Sort(EdgeLess, EdgesOf(p, owners)));
    }
  }

  lemma ExaminedBound(p: Problem, w: State)
    requires Kept(p, ViewOf(w), Idle(p)) && Tally(w)
    ensures w.edgesExamined <= |RuntimeEdges(p)|
  {
    hide Nested, Outgoing, UnresolvedOf, Accounted, Followed, NodeRejected, Deferred, Includes, Rejects, Classify,
         SeedHeld;
    forall e | e in Examined(w.traversed) ensures e in RuntimeEdges(p) {
      assert e in ViewOf(w).edges;
      OutgoingMembers(p, e.source, e);
    }
    SubsetSize(Examined(w.traversed), RuntimeEdges(p));
  }

  lemma {:induction false} PopsInOrder(p: Problem, b: Budget, w: State, d: nat)
    requires Lawful(p) && Inv(p, w, d)
    ensures var pops := Pops(p, b, w);
            && (forall i :: 0 <= i < |pops| ==> d <= pops[i])
            && (forall i, j :: 0 <= i < j < |pops| ==> pops[i] <= pops[j])
            && |pops| + w.edgesExamined <= |w.queue| + |RuntimeEdges(p)|
    decreases WorkLeft(b, w), MayRun(w)
  {
    hide Inv, Lawful, Step, Kept, Tally, Depths, RuntimeEdges, Popped;
    InvKept(p, w, d);
    ExaminedBound(p, w);
    if Running(w) {
      StepKeeps(p, b, w, d);
      StepSpends(p, b, w);
      var w', e := Step(p, b, w), Popped(w);
      PopsInOrder(p, b, w', e.depth);
      var rest := Pops(p, b, w');
      assert Pops(p, b, w) == [e.depth] + rest;
      if w'.budgetHit { assert rest == []; } else { StepGrowth(p, b, w); }
    }
  }

  /** Over any whole run, under any budget: pops come in non-decreasing depth and
      number at most one more than the runtime edges; no node is a member twice
      and no runtime edge is examined twice. */
  lemma WalkIsOrderly(p: Problem, b: Budget)
    requires WellFormed(p.graph)
    ensures var w, pops := Run(p, b, Start(p, b)), Pops(p, b, Start(p, b));
            && (forall i, j :: 0 <= i < j < |pops| ==> pops[i] <= pops[j])
            && |pops| <= 1 + |RuntimeEdges(p)|
            && (forall i, j :: 0 <= i < j < |w.members| ==> w.members[i].node != w.members[j].node)
            && OnceEach(w.traversed)
  {
    hide Inv, Lawful, Run, Pops;
    WellFormedIsLawful(p);
    StartKeeps(p, b);
    PopsInOrder(p, b, Start(p, b), 0);
    var d := RunKeeps(p, b, Start(p, b), 0);
    InvKept(p, Run(p, b, Start(p, b)), d);
  }

  // ----- Budgets -----

  /** What every run respects, whatever its verdict. */
  lemma EveryRunRespects(p: Problem, b: Budget)
    requires WellFormed(p.graph) && b.Valid()
    ensures var w := Compute(p, b).walk;
            && |w.members| <= b.maxNodes && |w.members| <= b.maxSymbols
            && |FilesOf(w.members)| <= b.maxFiles && |LinesOf(w.members)| <= b.maxSourceLines
            && |LinesOf(w.members)| * 10000 <= |DonorLines(p)| * b.maxDonorSourceBps
            && (forall n :: n in w.visited ==> w.visited[n] <= b.maxDepth)
            && |w.queue| <= w.peakQueue <= b.maxQueueEntries
  {
    hide Inv, Lawful, Frugal, Run, DonorLines;
    assert LinesOf([]) == {} && FilesOf([]) == {};
    if ValidSeed(p) {
      WellFormedIsLawful(p);
      StartKeeps(p, b);
      StartWithin(p, b);
      RunWithin(p, b, Start(p, b), 0);
    }
  }

  /** What a complete run respects besides: examined edges and configuration
      exactly. Work and external interfaces may overrun by what the last examined
      edge is charged after its test: two units for each import that supports it,
      and the external ones among those. Work overruns only if nothing was queued
      by that edge, since a pop is tested. */
  lemma CompleteRespects(p: Problem, b: Budget)
    requires WellFormed(p.graph) && b.Valid() && Compute(p, b).status.Complete?
    ensures var w := Compute(p, b).walk;
            var last := LastExamined(w.traversed);
            var supports := if last.None? then [] else SupportsOf(p, last.value);
            && w.edgesExamined <= b.maxEdges
            && |p.rules| + |p.pure| + p.adapterEntries <= b.maxConfigEntries
            && w.workUnits <= b.maxWorkUnits + 2 * |supports|
            && (w.workUnits > b.maxWorkUnits ==> last.Some? && !Includes(p, last.value.target))
            && |w.external| <= b.maxExternalInterfaces + |ExternalAmong(p, supports)|
            && |ExternalAmong(p, supports)| <= |supports| <= |ImportEdges(p)|
  {
    hide Inv, Lawful, Compute, SupportsOf, ExternalAmong, LastExamined, Includes;
    var _ := CompleteFacts(p, b);
    var last := LastExamined(Compute(p, b).walk.traversed);
    ExternalSize(p, if last.None? then [] else SupportsOf(p, last.value));
  }

  lemma ExaminedIsVisited(p: Problem, w: State, d: nat, e: Edge)
    requires Inv(p, w, d) && e in Examined(w.traversed)
    ensures e in p.graph.edges && e.kind.Runtime() && e.source in w.visited
  {
    hide Nested, Outgoing, UnresolvedOf, Refusal, Includes, Rejects, Classify, Accounted, Followed, Deferred,
         NodeRejected, Depths, Tally;
    assert e in ViewOf(w).edges;
    OutgoingMembers(p, e.source, e);
  }
}
