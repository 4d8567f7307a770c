/** The work and the external interfaces of a walk that runs to its end, counted
    in the graph: so a complete walk stays within those two budgets, or overruns
    them, exactly as these totals do. */
module WalkTotals {
  import opened Ordering
  import opened GraphModel
  import opened OwnerIndex
  import opened Walk
  import opened WalkInvariant
  import opened WalkCharges
  import opened WalkPreserves
  import opened WalkBudgets
  import opened WalkTheorems
  import opened WalkMonotone
  import opened WalkMembers
  import opened WalkVerdict

  // ----- What is counted -----

  function IncludedAmong(p: Problem, edges: set<Edge>): set<Edge> { set e | e in edges && Includes(p, e.target) }

  function SupportPairs(p: Problem, edges: set<Edge>): set<(Edge, Edge)> {
    set e, imp | e in edges && imp in SupportsOf(p, e) :: (e, imp)
  }

  function NestPairs(p: Problem, members: set<NodeId>): set<(NodeId, NodeId)> {
    set m, c | m in members && c in Nested(p, m) :: (m, c)
  }

  /** The external targets of the edges and of the imports that support them. */
  function Interfaces(p: Problem, edges: set<Edge>): set<NodeId> {
    (set e | e in edges && Assumes(p, e.target) :: e.target) +
    (set e, imp | e in edges && imp in SupportsOf(p, e) && Assumes(p, imp.target) :: imp.target)
  }

  /** Two units for each edge, one to queue and one to pop each included one, two
      for each import that supports one, and one for each definition nested in a member. */
  function Work(p: Problem, edges: set<Edge>, members: set<NodeId>): nat {
    2 + 2 * |edges| + 2 * |IncludedAmong(p, edges)| + 2 * |SupportPairs(p, edges)| + |NestPairs(p, members)|
  }

  // ----- One edge, or one member, more -----

  function Paired<A(==), B(==)>(a: A, s: seq<B>): set<(A, B)> { set x | x in s :: (a, x) }

  lemma {:induction false} PairedSize<A, B>(a: A, s: seq<B>)
    requires NoDuplicates(s)
    ensures |Paired(a, s)| == |s|
  {
    if s == [] {
      assert Paired(a, s) == {};
    } else {
      DistinctStep(s);
      PairedSize(a, s[1..]);
      assert s == [s[0]] + s[1..];
      assert Paired(a, s) == {(a, s[0])} + Paired(a, s[1..]);
    }
  }

  lemma {:induction false} SupportsDistinct(imports: seq<Edge>, binding: SourceRef)
    requires NoDuplicates(imports)
    ensures NoDuplicates(SupportsAmong(imports, binding))
  {
    if imports != [] {
      hide NoDuplicates, Supports;
      DistinctStep(imports);
      SupportsDistinct(imports[1..], binding);
      SupportsMembers(imports[1..], binding, imports[0]);
      if Supports(imports[0], binding) {
        var all := SupportsAmong(imports, binding);
        assert all == [imports[0]] + SupportsAmong(imports[1..], binding);
        assert all[1..] == SupportsAmong(imports[1..], binding);
        DistinctStep(all);
      } else {
        assert SupportsAmong(imports, binding) == SupportsAmong(imports[1..], binding);
      }
    }
  }

  lemma {:induction false} ImportsDistinct(edges: seq<Edge>)
    requires NoDuplicates(edges)
    ensures NoDuplicates(ImportsAmong(edges))
  {
    if edges != [] {
      var front := edges[..|edges| - 1];
      ImportsDistinct(front);
      ImportsAmongMembers(front, edges[|edges| - 1]);
    }
  }

  lemma SupportsOfDistinct(p: Problem, e: Edge)
    requires WellFormed(p.graph)
    ensures NoDuplicates(SupportsOf(p, e))
  {
    hide WellFormed;
    EdgesDistinct(p.graph);
    ImportsDistinct(p.graph.edges);
    if e.provenance.binding.Some? { SupportsDistinct(ImportEdges(p), e.provenance.binding.value); }
  }

  lemma NestedDistinct(p: Problem, n: NodeId)
    requires WellFormed(p.graph)
    ensures NoDuplicates(Nested(p, n))
  {
    OwnedAmongDistinct(p.graph, n, p.graph.nodes);
    SortKeepsDistinct(OwnerLess, NestedOwners(p.graph, n));
  }

  lemma IncludedAdd(p: Problem, edges: set<Edge>, e: Edge)
    requires e !in edges
    ensures |IncludedAmong(p, edges + {e})| == |IncludedAmong(p, edges)| + if Includes(p, e.target) then 1 else 0
  {
    hide Includes;
    assert IncludedAmong(p, edges + {e}) == IncludedAmong(p, edges) + if Includes(p, e.target) then {e} else {};
  }

  lemma SupportPairsAdd(p: Problem, edges: set<Edge>, e: Edge)
    requires WellFormed(p.graph) && e !in edges
    ensures |SupportPairs(p, edges + {e})| == |SupportPairs(p, edges)| + |SupportsOf(p, e)|
  {
    hide SupportsOf, WellFormed;
    SupportsOfDistinct(p, e);
    PairedSize(e, SupportsOf(p, e));
    var more := Paired(e, SupportsOf(p, e));
    assert SupportPairs(p, edges + {e}) == SupportPairs(p, edges) + more;
    assert SupportPairs(p, edges) !! more;
  }

  lemma InterfacesAdd(p: Problem, edges: set<Edge>, e: Edge)
    ensures Interfaces(p, edges + {e}) ==
            Interfaces(p, edges) + (if Assumes(p, e.target) then {e.target} else {}) +
            ExternalAmong(p, SupportsOf(p, e))
  {
    hide SupportsOf, Classify;
    var all, here := Interfaces(p, edges + {e}), ExternalAmong(p, SupportsOf(p, e));
    forall n | n in Interfaces(p, edges) ensures n in all {
      if x :| x in edges && Assumes(p, x.target) && x.target == n {
        assert x in edges + {e};
      } else {
        var x, imp :| x in edges && imp in SupportsOf(p, x) && Assumes(p, imp.target) && imp.target == n;
        assert x in edges + {e};
      }
    }
    forall n | n in here ensures n in all {
      var imp :| imp in SupportsOf(p, e) && Assumes(p, imp.target) && imp.target == n;
      assert e in edges + {e};
    }
    assert Assumes(p, e.target) ==> e in edges + {e} && e.target in all;
  }

  lemma NestPairsAdd(p: Problem, members: set<NodeId>, n: NodeId)
    requires WellFormed(p.graph) && n !in members
    ensures |NestPairs(p, members + {n})| == |NestPairs(p, members)| + |Nested(p, n)|
  {
    hide Nested, WellFormed;
    NestedDistinct(p, n);
    PairedSize(n, Nested(p, n));
    var more := Paired(n, Nested(p, n));
    assert NestPairs(p, members + {n}) == NestPairs(p, members) + more;
    assert NestPairs(p, members) !! more;
  }

  // ----- The walk keeps the account -----

  /** Work done and still queued is what the examined edges and the members come to. */
  ghost predicate Accounts(p: Problem, w: State, edges: set<Edge>, members: set<NodeId>) {
    w.workUnits + |w.queue| == Work(p, edges, members) && w.external == Interfaces(p, edges)
  }

  lemma ExamineOneCounts(p: Problem, b: Budget, w: State, d: nat, e: Edge, members: set<NodeId>)
    requires WellFormed(p.graph) && Lawful(p) && e.kind.Runtime() && e !in Examined(w.traversed)
    requires Accounts(p, w, Examined(w.traversed), members)
    requires !ExamineOne(p, b, w, d, e).budgetHit && ExamineOne(p, b, w, d, e).blockers == []
    ensures Accounts(p, ExamineOne(p, b, w, d, e), Examined(w.traversed) + {e}, members)
  {
    hide WellFormed, Lawful, Classify, SupportsOf, ExternalAmong, IncludedAmong, SupportPairs, NestPairs, Interfaces,
         Includes;
    var edges := Examined(w.traversed);
    assert !Rejects(p, e) && !Exhausted(b, Record(p, w, d, e)) && !w.budgetHit by { Unblocked(p, b, w, d, e); }
    if Includes(p, e.target) { HadRoom(p, b, w, d, e); }
    ExamineOneCharges(p, b, w, d, e);
    IncludedAdd(p, edges, e);
    SupportPairsAdd(p, edges, e);
    InterfacesAdd(p, edges, e);
  }

  lemma Unblocked(p: Problem, b: Budget, w: State, d: nat, e: Edge)
    requires !ExamineOne(p, b, w, d, e).budgetHit && ExamineOne(p, b, w, d, e).blockers == []
    ensures !Rejects(p, e) && !Exhausted(b, Record(p, w, d, e)) && !w.budgetHit
  {
    hide Classify, Exhausted, SupportAll;
    if w.budgetHit { ExamineOneSticky(p, b, w, d, e); }
  }

  lemma HadRoom(p: Problem, b: Budget, w: State, d: nat, e: Edge)
    requires !ExamineOne(p, b, w, d, e).budgetHit && !Rejects(p, e) && Includes(p, e.target)
    ensures d + 1 <= b.maxDepth && |w.queue| + 1 <= b.maxQueueEntries
  {
    hide Classify, Exhausted, SupportAll;
  }

  lemma {:induction false} ExamineAllCounts(
      p: Problem, b: Budget, w: State, d: nat, edges: seq<Edge>, members: set<NodeId>)
    requires WellFormed(p.graph) && Lawful(p) && NoDuplicates(edges)
    requires forall e :: e in edges ==> e.kind.Runtime() && e !in Examined(w.traversed)
    requires Accounts(p, w, Examined(w.traversed), members)
    requires !ExamineAll(p, b, w, d, edges).budgetHit && ExamineAll(p, b, w, d, edges).blockers == []
    ensures var w' := ExamineAll(p, b, w, d, edges); Accounts(p, w', Examined(w'.traversed), members)
    decreases |edges|
  {
    hide WellFormed, Lawful, ExamineOne, Accounts, NoDuplicates, Subsumed, Examined;
    if edges != [] {
      var e, w1 := edges[0], ExamineOne(p, b, w, d, edges[0]);
      if w1.budgetHit { ExamineAllSticky(p, b, w1, d, edges[1..]); }
      ExamineAllGrows(p, b, w1, d, edges[1..]);
      SubsumedByNone(w1.blockers, ExamineAll(p, b, w1, d, edges[1..]).blockers);
      ExamineOneCounts(p, b, w, d, e, members);
      ExamineOneAdds(p, b, w, d, e);
      DistinctStep(edges);
      ExamineAllCounts(p, b, w1, d, edges[1..], members);
    }
  }

  lemma ExpandCounts(p: Problem, b: Budget, w: State, at: Frontier, members: set<NodeId>)
    requires WellFormed(p.graph) && Visiting(p, w, at, [at.node], Nested(p, at.node)) && !w.budgetHit &&
             at.node !in members
    requires Accounts(p, w, Examined(w.traversed), members)
    requires !Expand(p, b, w, at).budgetHit && Expand(p, b, w, at).blockers == []
    ensures var w' := Expand(p, b, w, at); Accounts(p, w', Examined(w'.traversed), members + {at.node})
  {
    hide WellFormed, Lawful, VisitAll, ExamineAll, Nested, Sort, EdgesOf, Kept, Tally, Outgoing, ReachedAt, Queued,
         Owned;
    hide NestPairs, SupportPairs, IncludedAmong, Interfaces, NoDuplicates;
    var (w1, owners) := VisitAll(p, b, w, at, [at.node], Nested(p, at.node));
    if !w1.budgetHit {
      assert forall n :: n in w.visited ==> w.visited[n] <= at.depth by { ViewFields(w); }
      VisitAllFrame(p, b, w, at, [at.node], Nested(p, at.node));
      VisitAllTakes(p, b, w, at, [at.node], Nested(p, at.node));
      VisitAllKeeps(p, b, w, at, [at.node], Nested(p, at.node));
      NestPairsAdd(p, members, at.node);
      FreshEdges(p, w1, at, owners);
      ViewFields(w1);
      ExamineAllCounts(p, b, w1, at.depth, Sort(EdgeLess, EdgesOf(p, owners)), members + {at.node});
    }
  }

  ghost predicate Counted(p: Problem, w: State) {
    !w.budgetHit && w.blockers == [] ==> Accounts(p, w, Examined(w.traversed), ViewOf(w).members)
  }

  lemma StepCounts(p: Problem, b: Budget, w: State, d: nat)
    requires WellFormed(p.graph) && Lawful(p) && Inv(p, w, d) && Running(w) && Counted(p, w)
    ensures Counted(p, Step(p, b, w))
  {
    hide WellFormed, Lawful, Inv, Least, Oversized, Refusal, Expand, Work, Interfaces, Examined, UnresolvedOf,
         Reached, Nested;
    var w', q := Step(p, b, w), Popped(w);
    if !w'.budgetHit && w'.blockers == [] {
      NoBlockersBefore(p, b, w);
      StepKeeps(p, b, w, d);
      if q.node in w.visited {
        StepSkips(p, b, w, d);
      } else {
        StepAdmits(p, b, w, d);
        var w1 := Rest(w).(visited := w.visited[q.node := q.depth]);
        var m, at := MemberOf(p, q.node), Frontier(q.depth, q.node, q.incoming);
        var w2 := Admit(p, w1, m);
        PopReaches(p, w, d);
        AdmitVisits(p, w1, at, m);
        MembersAppend(w, w', m);
        NewMember(p, w1, at);
        ExpandCounts(p, b, w2, at, ViewOf(w).members);
      }
    }
  }

  lemma NewMember(p: Problem, w: State, at: Frontier)
    requires Reached(p, w, at)
    ensures at.node !in ViewOf(w).members
  {
    hide Lawful, Depths, Tally, Kept;
  }

  lemma {:induction false} RunCounts(p: Problem, b: Budget, w: State, d: nat)
    requires WellFormed(p.graph) && Lawful(p) && Inv(p, w, d) && Counted(p, w)
    ensures Counted(p, Run(p, b, w))
    decreases WorkLeft(b, w), MayRun(w)
  {
    hide WellFormed, Lawful, Inv, Step, Counted;
    if Running(w) {
      StepCounts(p, b, w, d);
      StepKeeps(p, b, w, d);
      StepSpends(p, b, w);
      RunCounts(p, b, Step(p, b, w), Popped(w).depth);
    }
  }

  lemma StartCounts(p: Problem, b: Budget)
    ensures Counted(p, Start(p, b))
  {
    assert Examined([]) == {} && ViewOf(Start(p, b)).members == {};
    assert IncludedAmong(p, {}) == {} && SupportPairs(p, {}) == {} && NestPairs(p, {}) == {} && Interfaces(p, {}) == {};
  }

  // ----- The totals of the closure -----

  /** The runtime edges out of a set of nodes. */
  function EdgesFrom(p: Problem, s: set<NodeId>): set<Edge> {
    set e | e in p.graph.edges && e.kind.Runtime() && e.source in s
  }

  /** The work of a walk that runs to its end over the closure `s`. */
  ghost function TotalWork(p: Problem, s: set<NodeId>): nat {
    Work(p, EdgesFrom(p, s), set n | n in s && Chosen(p, n))
  }

  /** The external interfaces it uses. */
  function TotalInterfaces(p: Problem, s: set<NodeId>): set<NodeId> { Interfaces(p, EdgesFrom(p, s)) }

  lemma ExaminedIsClosure(p: Problem, w: State, d: nat)
    requires Inv(p, w, d) && Calm(p, ViewOf(w))
    ensures Examined(w.traversed) == EdgesFrom(p, w.visited.Keys)
  {
    hide Inv, Calm;
    ViewFields(w);
    forall e ensures e in Examined(w.traversed) <==> e in EdgesFrom(p, w.visited.Keys) {
      if e in Examined(w.traversed) { ExaminedIsVisited(p, w, d, e); }
      if e in EdgesFrom(p, w.visited.Keys) {
        OutgoingMembers(p, e.source, e);
        CalmEdge(p, ViewOf(w), e.source, e);
      }
    }
  }

  /** A finished walk visits the least closed set. */
  lemma FinishedIsLeast(p: Problem, b: Budget, s: set<NodeId>)
    requires WellFormed(p.graph) && b.Valid() && Finished(p, b) && LeastClosed(p, s)
    ensures Compute(p, b).walk.visited.Keys == s
  {
    hide WellFormed, Compute, Kept, Lawful, Tally, Queued, Quiet, ChosenSoFar, Closed, Finished;
    var d := FinishedFacts(p, b);
    var w := Compute(p, b).walk;
    SettledIsClosed(p, ViewOf(w));
    assert p.seed in w.visited by { SettledSeed(p, ViewOf(w)); }
    forall n | n in w.visited.Keys ensures n in s {
      assert ReachedAt(p, n, w.visited[n]);
      var hops :| Chain(p, hops, n) && Cost(hops) == w.visited[n];
      ChainStaysInside(p, hops, n, s);
    }
  }

  lemma SettledSeed(p: Problem, v: View)
    requires Settled(p, v)
    ensures p.seed in v.visited
  {
    hide Nested, Outgoing, Includes, Rejects, UnresolvedOf;
  }

  /** What a walk that runs to its end spends and uses, to the unit, is counted in the graph. */
  lemma FinishedTotals(p: Problem, b: Budget, s: set<NodeId>)
    requires WellFormed(p.graph) && b.Valid() && Finished(p, b) && LeastClosed(p, s)
    ensures Compute(p, b).walk.workUnits == TotalWork(p, s)
    ensures Compute(p, b).walk.external == TotalInterfaces(p, s)
  {
    hide WellFormed, Compute, Run, Kept, Lawful, Tally, Depths, ChosenSoFar, Settled, Chosen, LeastClosed, Work,
         Interfaces;
    var d := FinishedFacts(p, b);
    var w := Compute(p, b).walk;
    StartKeeps(p, b);
    StartCounts(p, b);
    RunCounts(p, b, Start(p, b), 0);
    FinishedIsLeast(p, b, s);
    ExaminedIsClosure(p, w, d);
    forall n ensures n in ViewOf(w).members <==> n in s && Chosen(p, n) {
      MembersExactly(p, b, n);
      if Chosen(p, n) { ChosenIsVisited(p, ViewOf(w), n); }
    }
    assert ViewOf(w).members == set n | n in s && Chosen(p, n);
  }

  /** A complete walk is within its work budget, and within its interface budget,
      exactly when the totals of the least closed set are. */
  lemma CompleteWithinExactly(p: Problem, b: Budget, s: set<NodeId>)
    requires WellFormed(p.graph) && b.Valid() && Compute(p, b).status.Complete? && LeastClosed(p, s)
    ensures Compute(p, b).walk.workUnits <= b.maxWorkUnits <==> TotalWork(p, s) <= b.maxWorkUnits
    ensures |Compute(p, b).walk.external| <= b.maxExternalInterfaces <==>
            |TotalInterfaces(p, s)| <= b.maxExternalInterfaces
  {
    hide WellFormed, LeastClosed, TotalWork, TotalInterfaces, Inv, Lawful, Bounded, Frugal, Run;
    var _ := CompleteFacts(p, b);
    FinishedTotals(p, b, s);
  }

  /** No overrun at all where no import proves the binding of a runtime edge that the seed reaches. */
  lemma UnsupportedStaysWithin(p: Problem, b: Budget)
    requires WellFormed(p.graph) && b.Valid() && Compute(p, b).status.Complete?
    requires forall e :: e in p.graph.edges && e.kind.Runtime() && Reachable(p, e.source) ==> SupportsOf(p, e) == []
    ensures Compute(p, b).walk.workUnits <= b.maxWorkUnits
    ensures |Compute(p, b).walk.external| <= b.maxExternalInterfaces
  {
    hide Inv, Lawful, Compute, ConfigEntries, SupportsOf, LastExamined, Includes, Bounded, Frugal, Chain, Cost;
    CompleteRespects(p, b);
    var d := CompleteFacts(p, b);
    var w := Compute(p, b).walk;
    if LastExamined(w.traversed).Some? {
      var e := LastExamined(w.traversed).value;
      LastIsExamined(w.traversed);
      ExaminedIsVisited(p, w, d, e);
      CompleteDepthIsDistance(p, b, e.source);
    }
  }
}
