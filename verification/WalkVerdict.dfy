/** What the verdict means of the graph, without mention of the walk: a graph is
    rejected for something the seed reaches, and a walk that no budget stops
    rejects exactly when there is something to reject. */
module WalkVerdict {
  import opened Ordering
  import opened GraphModel
  import opened Walk
  import opened WalkInvariant
  import opened WalkPreserves
  import opened WalkBudgets
  import opened WalkCharges
  import opened WalkMonotone
  import opened WalkTheorems
  import opened WalkFaithful
  import opened WalkMembers

  // ----- Every support of an examined edge is looked at -----

  /** Unless a budget was hit, the rejected supports of every examined edge are blockers. */
  ghost predicate Supported(p: Problem, w: State) {
    !w.budgetHit ==>
      forall e, imp ::
        e in Examined(w.traversed) && !Rejects(p, e) && SupportOf(p, e, imp) && Rejects(p, imp) ==>
          Rejected(Classify(p, imp.target, Some(imp))) in w.blockers
  }

  lemma {:induction false} SupportRejected(p: Problem, binding: SourceRef, imports: seq<Edge>, imp: Edge)
    requires imp in imports && Supports(imp, binding) && Rejects(p, imp)
    ensures Rejected(Classify(p, imp.target, Some(imp))) in SupportRejects(p, binding, imports)
    decreases |imports|
  {
    hide Classify;
    if imp != imports[0] { SupportRejected(p, binding, imports[1..], imp); }
  }

  lemma ExamineOneAdds(p: Problem, b: Budget, w: State, d: nat, e: Edge)
    requires Lawful(p) && e.kind.Runtime()
    ensures Examined(ExamineOne(p, b, w, d, e).traversed) == Examined(w.traversed) + {e}
  {
    hide Classify, SupportAll, Exhausted, Lawful;
    ViewRecord(p, w, d, e);
    var w1 := Record(p, w, d, e);
    ViewFields(w1);
    ViewFields(w);
    if e.provenance.binding.Some? {
      var binding := e.provenance.binding.value;
      assert forall imp :: imp in ImportEdges(p) ==> imp.kind.Imports? by { LawfulImports(p); }
      SupportAllKeeps(p, w1, d + 1, binding, ImportEdges(p));
      SupportAllKeeps(p, Enqueue(w1, d, e), d + 1, binding, ImportEdges(p));
    }
  }

  lemma LawfulImports(p: Problem)
    requires Lawful(p)
    ensures forall imp :: imp in ImportEdges(p) ==> imp.kind.Imports?
  {
    hide Nested, Outgoing;
  }

  lemma ExamineOneSupported(p: Problem, b: Budget, w: State, d: nat, e: Edge)
    requires Lawful(p) && e.kind.Runtime() && Supported(p, w)
    ensures Supported(p, ExamineOne(p, b, w, d, e))
  {
    hide ExamineOne, Classify, Lawful, SupportRejects, Rejects, Exhausted, ImportEdges, Record;
    var w' := ExamineOne(p, b, w, d, e);
    if !w'.budgetHit {
      if w.budgetHit { ExamineOneSticky(p, b, w, d, e); }
      ExamineOneAdds(p, b, w, d, e);
      ExamineOneBlockers(p, b, w, d, e);
      forall x, imp | x in Examined(w'.traversed) && !Rejects(p, x) && SupportOf(p, x, imp) && Rejects(p, imp)
        ensures Rejected(Classify(p, imp.target, Some(imp))) in w'.blockers
      {
        if x == e { SupportRejected(p, e.provenance.binding.value, ImportEdges(p), imp); }
      }
    }
  }

  lemma {:induction false} ExamineAllSupported(p: Problem, b: Budget, w: State, d: nat, edges: seq<Edge>)
    requires Lawful(p) && Supported(p, w) && forall e :: e in edges ==> e.kind.Runtime()
    ensures Supported(p, ExamineAll(p, b, w, d, edges))
    decreases |edges|
  {
    hide ExamineOne, Lawful, Supported;
    if edges != [] {
      ExamineOneSupported(p, b, w, d, edges[0]);
      ExamineAllSupported(p, b, ExamineOne(p, b, w, d, edges[0]), d, edges[1..]);
    }
  }

  lemma SupportedGrows(p: Problem, w: State, w': State)
    requires Supported(p, w) && !w.budgetHit && w'.traversed == w.traversed && Subsumed(w.blockers, w'.blockers)
    ensures Supported(p, w')
  {
    hide Rejects, Classify, SupportOf;
  }

  lemma ExpandSupported(p: Problem, b: Budget, w: State, at: Frontier)
    requires Lawful(p) && Supported(p, w) && !w.budgetHit
    ensures Supported(p, Expand(p, b, w, at))
  {
    hide VisitAll, ExamineAll, Nested, EdgesOf, Sort, Lawful, Supported;
    var (w1, owners) := VisitAll(p, b, w, at, [at.node], Nested(p, at.node));
    VisitAllFrame(p, b, w, at, [at.node], Nested(p, at.node));
    VisitAllGrows(p, b, w, at, [at.node], Nested(p, at.node));
    SupportedGrows(p, w, w1);
    var edges := Sort(EdgeLess, EdgesOf(p, owners));
    SameMembers(edges, EdgesOf(p, owners));
    forall e | e in edges ensures e.kind.Runtime() { LawfulEdges(p, owners, e); RuntimeOut(p, e); }
    ExamineAllSupported(p, b, w1, at.depth, edges);
  }

  lemma RuntimeOut(p: Problem, e: Edge)
    requires e in Outgoing(p, e.source)
    ensures e.kind.Runtime()
  {
    OutgoingAmongMembers(p.graph.edges, e.source, e);
  }

  lemma StepSupported(p: Problem, b: Budget, w: State)
    requires Lawful(p) && Running(w) && Supported(p, w)
    ensures Supported(p, Step(p, b, w))
  {
    hide Expand, Oversized, Refusal, Least, UnresolvedOf, Lawful, Supported;
    var i := Least(w.queue);
    var e := w.queue[i];
    var at := Frontier(EntryDepth(w.visited, e.incoming), e.node, e.incoming);
    var r := w.(queue := RemoveAt(w.queue, i), workUnits := w.workUnits + 1);
    var w1 := r.(visited := r.visited[e.node := at.depth]);
    SupportedGrows(p, w, r);
    SupportedGrows(p, r, w1);
    SupportedGrows(p, r, r.(queue := r.queue + [Entry(at.depth, w.serial, e.node, e.incoming)], budgetHit := true));
    if Refusal(p, at.node).Some? {
      SupportedGrows(p, w1, RecordRejection(w1, SourceRejection(p, at.node, at.incoming)));
    } else {
      var m := MemberOf(p, at.node);
      SupportedGrows(p, w1, Defer(w1, at));
      SupportedGrows(p, w1, Admit(p, w1, m));
      ExpandSupported(p, b, Admit(p, w1, m), at);
    }
  }

  lemma {:induction false} RunSupported(p: Problem, b: Budget, w: State)
    requires Lawful(p) && Supported(p, w)
    ensures Supported(p, Run(p, b, w))
    decreases WorkLeft(b, w), MayRun(w)
  {
    hide Step, Lawful, Supported;
    if Running(w) {
      StepSupported(p, b, w);
      StepSpends(p, b, w);
      RunSupported(p, b, Step(p, b, w));
    }
  }

  // ----- The verdict, in terms of the graph -----

  /** Some chain of nestings and included runtime edges leads from the seed to `n`. */
  ghost predicate Reachable(p: Problem, n: NodeId) { exists hops :: Chain(p, hops, n) }

  /** An import of the graph that stands where the edge's name is bound, or binds it there. */
  ghost predicate Proves(p: Problem, imp: Edge, e: Edge) {
    && imp in p.graph.edges && imp.kind == Imports && e.provenance.binding.Some?
    && (imp.provenance.binding == e.provenance.binding || imp.provenance.site == e.provenance.binding.value)
  }

  /** An edge whose target, or whose binding's import, is turned away by its rule or for its origin. */
  ghost predicate Bad(p: Problem, e: Edge) {
    TurnsAway(p, e.target) || exists imp :: Proves(p, imp, e) && TurnsAway(p, imp.target)
  }

  /** A node with an unresolved reference, other than a test's, or with a bad runtime edge. */
  ghost predicate Tainted(p: Problem, n: NodeId) {
    || (exists u :: u in p.graph.unresolved && u.source == n && u.kind != TestedBy)
    || (exists e :: e in p.graph.edges && e.source == n && e.kind != Imports && e.kind != TestedBy && Bad(p, e))
  }

  /** The graph gives the node a source, and re-reading it succeeds. */
  ghost predicate Proven(p: Problem, n: NodeId) {
    exists k :: 0 <= k < |p.graph.nodes| && p.graph.nodes[k].id == n && p.graph.nodes[k].source.Some? &&
      var source := p.graph.nodes[k].source.value;
      source in p.verification && p.verification[source].Verified?
  }

  /** Something to reject: a reachable node is tainted, or a chosen one cannot be verified. */
  ghost predicate Dirty(p: Problem) {
    exists n :: Reachable(p, n) && (Tainted(p, n) || (Chosen(p, n) && !Proven(p, n)))
  }

  // ----- The same, as the walk's tables have it -----

  lemma BadExactly(p: Problem, e: Edge)
    ensures Bad(p, e) <==> Rejects(p, e) || exists imp :: SupportOf(p, e, imp) && Rejects(p, imp)
  {
    hide TurnsAway;
    forall imp ensures SupportOf(p, e, imp) <==> Proves(p, imp, e) { ImportsAmongMembers(p.graph.edges, imp); }
  }

  lemma TaintedExactly(p: Problem, n: NodeId)
    ensures Tainted(p, n) <==> UnresolvedOf(p, n) != [] || exists e :: e in Outgoing(p, n) && Bad(p, e)
  {
    hide Bad;
    forall u ensures u in UnresolvedOf(p, n) <==> u in p.graph.unresolved && u.source == n && u.kind != TestedBy {
      UnresolvedAmongMembers(p.graph.unresolved, n, u);
    }
    FirstUnresolved(p, n);
    forall e
      ensures e in Outgoing(p, n) <==> e in p.graph.edges && e.source == n && e.kind != Imports && e.kind != TestedBy
    {
      OutgoingAmongMembers(p.graph.edges, n, e);
    }
  }

  lemma {:induction false} SourceOfNode(nodes: seq<Node>, k: nat)
    requires k < |nodes| && forall i, j :: 0 <= i < j < |nodes| ==> nodes[i].id != nodes[j].id
    ensures SourceOf(nodes, nodes[k].id) == nodes[k].source
  {
    if k > 0 { SourceOfNode(nodes[1..], k - 1); }
  }

  lemma {:induction false} SourceHasNode(nodes: seq<Node>, n: NodeId) returns (k: nat)
    requires SourceOf(nodes, n).Some?
    ensures k < |nodes| && nodes[k].id == n
  {
    if nodes[0].id == n {
      k := 0;
    } else {
      var rest := SourceHasNode(nodes[1..], n);
      k := rest + 1;
    }
  }

  lemma ProvenExactly(p: Problem, n: NodeId)
    requires WellFormed(p.graph)
    ensures Proven(p, n) <==> Refusal(p, n).None?
  {
    var nodes := p.graph.nodes;
    if SourceOf(nodes, n).Some? {
      var k := SourceHasNode(nodes, n);
      SourceOfNode(nodes, k);
    }
    forall k | 0 <= k < |nodes| && nodes[k].id == n ensures SourceOf(nodes, n) == nodes[k].source {
      SourceOfNode(nodes, k);
    }
  }

  // ----- The first thing that blocks a walk is something to reject -----

  lemma {:induction false} VisitAllBlocked(
      p: Problem, b: Budget, w: State, at: Frontier, owners: seq<NodeId>, todo: seq<NodeId>)
    requires w.blockers == [] && VisitAll(p, b, w, at, owners, todo).0.blockers != []
    ensures exists c :: c in todo && UnresolvedOf(p, c) != []
    decreases |todo|
  {
    hide UnresolvedOf;
    if todo != [] && !w.budgetHit {
      var n := todo[0];
      var w1 := VisitOne(p, b, w, at, n);
      var taken := !w1.budgetHit && (n !in w.visited || w.visited[n] > at.depth);
      if UnresolvedOf(p, n) == [] {
        VisitAllBlocked(p, b, w1, at, if taken then owners + [n] else owners, todo[1..]);
      }
    }
  }

  lemma {:induction false} VisitAllOwners(
      p: Problem, b: Budget, w: State, at: Frontier, owners: seq<NodeId>, todo: seq<NodeId>)
    ensures forall c :: c in VisitAll(p, b, w, at, owners, todo).1 ==> c in owners || c in todo
    decreases |todo|
  {
    hide UnresolvedOf;
    if todo != [] && !w.budgetHit {
      var n := todo[0];
      var w1 := VisitOne(p, b, w, at, n);
      var taken := !w1.budgetHit && (n !in w.visited || w.visited[n] > at.depth);
      VisitAllOwners(p, b, w1, at, if taken then owners + [n] else owners, todo[1..]);
    }
  }

  lemma SupportIsBad(p: Problem, e: Edge)
    requires EdgeSupportRejects(p, e) != []
    ensures exists imp :: SupportOf(p, e, imp) && Rejects(p, imp)
  {
    hide Classify, ImportEdges;
    SomeSupportRejected(p, e.provenance.binding.value, ImportEdges(p));
  }

  lemma {:induction false} SomeSupportRejected(p: Problem, binding: SourceRef, imports: seq<Edge>)
    requires SupportRejects(p, binding, imports) != []
    ensures exists imp :: imp in imports && Supports(imp, binding) && Rejects(p, imp)
    decreases |imports|
  {
    hide Classify;
    if !(Supports(imports[0], binding) && Rejects(p, imports[0])) {
      SomeSupportRejected(p, binding, imports[1..]);
    }
  }

  lemma {:induction false} ExamineAllBlocked(p: Problem, b: Budget, w: State, d: nat, edges: seq<Edge>)
    requires w.blockers == [] && ExamineAll(p, b, w, d, edges).blockers != []
    ensures exists e :: e in edges && Bad(p, e)
    decreases |edges|
  {
    hide ExamineOne, Rejects, SupportOf, EdgeSupportRejects, Exhausted, Record, Bad;
    if edges != [] {
      var e := edges[0];
      BadExactly(p, e);
      ExamineOneBlockers(p, b, w, d, e);
      if EdgeSupportRejects(p, e) != [] {
        SupportIsBad(p, e);
      } else if !Rejects(p, e) {
        assert RecordRejects(p, e) == [];
        ExamineAllBlocked(p, b, ExamineOne(p, b, w, d, e), d, edges[1..]);
      }
    }
  }

  lemma ReachesInto(p: Problem, n: NodeId, c: NodeId)
    requires Reachable(p, n) && (c == n || c in Nested(p, n))
    ensures Reachable(p, c)
  {
    hide Nested;
    var hops :| Chain(p, hops, n);
    if c != n {
      LegalExactly(p, Into(n, c));
      var longer := hops + [Into(n, c)];
      assert longer[..|longer| - 1] == hops;
      assert Chain(p, longer, c);
    }
  }

  /** Expanding a member blocks only on a taint of its own or of something nested in it. */
  lemma ExpandBlocked(p: Problem, b: Budget, w: State, at: Frontier)
    requires Lawful(p) && Reachable(p, at.node) && w.blockers == [] && Expand(p, b, w, at).blockers != []
    ensures Dirty(p)
  {
    hide VisitAll, ExamineAll, Nested, EdgesOf, Sort, Bad, UnresolvedOf, Lawful, Reachable, Chosen, Proven, Outgoing,
         Tainted;
    var (w1, owners) := VisitAll(p, b, w, at, [at.node], Nested(p, at.node));
    if w1.blockers != [] {
      VisitAllBlocked(p, b, w, at, [at.node], Nested(p, at.node));
      var c :| c in Nested(p, at.node) && UnresolvedOf(p, c) != [];
      ReachesInto(p, at.node, c);
      TaintedExactly(p, c);
    } else {
      var edges := Sort(EdgeLess, EdgesOf(p, owners));
      ExamineAllBlocked(p, b, w1, at.depth, edges);
      var e :| e in edges && Bad(p, e);
      SameMembers(edges, EdgesOf(p, owners));
      LawfulEdges(p, owners, e);
      VisitAllOwners(p, b, w, at, [at.node], Nested(p, at.node));
      ReachesInto(p, at.node, e.source);
      TaintedExactly(p, e.source);
    }
  }

  /** The iteration that first blocks: it takes up a node that is chosen and refused, or expands one that is tainted. */
  lemma StepBlocked(p: Problem, b: Budget, w: State, d: nat)
    requires WellFormed(p.graph) && Lawful(p) && Inv(p, w, d) && Running(w) && w.frontier == []
    requires w.blockers == [] && Step(p, b, w).blockers != []
    ensures Dirty(p)
  {
    hide WellFormed, Lawful, Inv, Least, Oversized, Refusal, Expand, Nested, UnresolvedOf, Chosen, Reachable, Outgoing,
         Tainted, Proven;
    var q := Popped(w);
    StepKeeps(p, b, w, d);
    if q.node in w.visited {
      StepSkips(p, b, w, d);
      SkipsUnblocked(p, b, w);
    } else {
      PoppedIsForemost(p, w, d);
      ForemostIsChosen(p, ViewOf(w), d, q);
      assert Chosen(p, q.node) by { IsChosen(p, q.node, q.depth); }
      ChosenIsReachable(p, q.node);
      ProvenExactly(p, q.node);
      if Refusal(p, q.node).None? {
        var w1 := Rest(w).(visited := w.visited[q.node := q.depth]);
        var m := MemberOf(p, q.node);
        if UnresolvedOf(p, q.node) != [] {
          TaintedExactly(p, q.node);
        } else {
          ExpandBlocked(p, b, Admit(p, w1, m), Frontier(q.depth, q.node, q.incoming));
        }
      }
    }
  }

  lemma SkipsUnblocked(p: Problem, b: Budget, w: State)
    requires Running(w) && Popped(w).node in w.visited
    requires w.visited[Popped(w).node] <= EntryDepth(w.visited, Popped(w).incoming)
    ensures Step(p, b, w).blockers == w.blockers
  {
    hide Least, Reach;
  }

  lemma ChosenIsReachable(p: Problem, n: NodeId)
    requires Chosen(p, n)
    ensures Reachable(p, n)
  {
    hide Chain, Cost, Entered, Shadows;
    var k :| ChosenAt(p, n, k);
    var hops :| Chain(p, hops, n) && Cost(hops) == k;
  }

  lemma {:induction false} RunBlocked(p: Problem, b: Budget, w: State, d: nat)
    requires WellFormed(p.graph) && Lawful(p) && Inv(p, w, d) && Bounded(p, b, w) && Frugal(p, b, w)
    requires w.blockers == [] && Run(p, b, w).blockers != []
    ensures Dirty(p)
    decreases WorkLeft(b, w), MayRun(w)
  {
    hide WellFormed, Lawful, Inv, Step, Frugal, Dirty, Oversized;
    if Running(w) {
      if Step(p, b, w).blockers != [] {
        StepBlocked(p, b, w, d);
      } else {
        StepKeeps(p, b, w, d);
        StepWithin(p, b, w, d);
        StepSpends(p, b, w);
        RunBlocked(p, b, Step(p, b, w), Popped(w).depth);
      }
    }
  }

  /** No budget, however small, makes the walk reject a graph without cause. */
  lemma RejectMeansDirty(p: Problem, b: Budget)
    requires WellFormed(p.graph) && ValidSeed(p) && Compute(p, b).status.RejectStatus?
    ensures Dirty(p)
  {
    hide Run, Lawful, Inv, Bounded, Frugal, Dirty, WellFormed, ValidSeed;
    if Start(p, b).budgetHit { RunStopped(p, b, Start(p, b)); }
    WellFormedIsLawful(p);
    StartKeeps(p, b);
    StartWithin(p, b);
    RunBlocked(p, b, Start(p, b), 0);
  }

  /** The final picture of a walk that no budget stopped and nothing blocked. */
  lemma UnstoppedSettles(p: Problem, b: Budget)
    requires WellFormed(p.graph) && b.Valid() && ValidSeed(p)
    requires !Compute(p, b).walk.budgetHit && Compute(p, b).walk.blockers == []
    ensures var w := Compute(p, b).walk;
            Settled(p, ViewOf(w)) && Lawful(p) && Supported(p, w) && Kept(p, ViewOf(w), Idle(p))
    ensures ViewOf(Compute(p, b).walk).frontier == {}
  {
    hide Run, Kept, Tally, Lawful, Depths, Supported, Settled, Oversized;
    WellFormedIsLawful(p);
    StartKeeps(p, b);
    StartWithin(p, b);
    assert Supported(p, Start(p, b)) by { StartSupported(p, b); }
    var d := RunKeeps(p, b, Start(p, b), 0);
    assert Bounded(p, b, Run(p, b, Start(p, b))) by { RunWithin(p, b, Start(p, b), 0); }
    RunSupported(p, b, Start(p, b));
    KeptSettles(p, ViewOf(Run(p, b, Start(p, b))));
  }

  lemma StartSupported(p: Problem, b: Budget)
    ensures Supported(p, Start(p, b))
  {
    assert Examined([]) == {};
  }

  /** An unblocked, unstopped walk has looked at every edge of every reachable node and found none bad. */
  lemma UnblockedIsUntainted(p: Problem, b: Budget, n: NodeId)
    requires WellFormed(p.graph) && b.Valid() && ValidSeed(p)
    requires !Compute(p, b).walk.budgetHit && Compute(p, b).walk.blockers == [] && Reachable(p, n)
    ensures n in Compute(p, b).walk.visited && !Tainted(p, n)
  {
    hide Compute, WellFormed, ValidSeed, Kept, Lawful, UnresolvedOf, Outgoing, Rejects, SupportOf, Includes, Nested,
         Chain, Classify, Tainted, Bad;
    TaintedExactly(p, n);
    UnstoppedSettles(p, b);
    var w := Compute(p, b).walk;
    var hops :| Chain(p, hops, n);
    SettledBound(p, ViewOf(w), hops, n);
    ViewFields(w);
    FirstUnresolved(p, n);
    forall e | e in Outgoing(p, n) ensures !Bad(p, e) {
      assert !Rejects(p, e);
      EdgeExamined(p, w, n, e);
      BadExactly(p, e);
    }
  }

  lemma FirstUnresolved(p: Problem, n: NodeId)
    ensures UnresolvedOf(p, n) == [] || exists u :: u in UnresolvedOf(p, n)
  {
    hide UnresolvedOf;
    if UnresolvedOf(p, n) != [] { assert UnresolvedOf(p, n)[0] in UnresolvedOf(p, n); }
  }

  lemma EdgeExamined(p: Problem, w: State, n: NodeId, e: Edge)
    requires Lawful(p) && Kept(p, ViewOf(w), Idle(p)) && w.blockers == [] && ViewOf(w).frontier == {}
    requires n in w.visited && e in Outgoing(p, n)
    ensures e in Examined(w.traversed)
  {
    hide Nested, Outgoing, UnresolvedOf, Refusal, Includes, Rejects, Classify, Accounted, Followed;
    ViewFields(w);
    assert e in ViewOf(w).edges || NodeRejected(p, ViewOf(w), n) || Deferred(p, ViewOf(w), n);
  }

  /** A walk that no budget stops overlooks nothing. */
  lemma DirtyMeansReject(p: Problem, b: Budget)
    requires WellFormed(p.graph) && b.Valid() && ValidSeed(p) && !Compute(p, b).walk.budgetHit && Dirty(p)
    ensures Compute(p, b).status.RejectStatus?
  {
    hide WellFormed, ValidSeed, Run, Reachable, Tainted, Proven, Chosen;
    if Compute(p, b).walk.blockers == [] {
      forall n | Reachable(p, n) ensures !Tainted(p, n) { UnblockedIsUntainted(p, b, n); }
      forall n | Chosen(p, n) ensures Proven(p, n) { ChosenIsVerified(p, b, n); }
    }
  }

  lemma ChosenIsVerified(p: Problem, b: Budget, n: NodeId)
    requires WellFormed(p.graph) && b.Valid() && Finished(p, b) && Chosen(p, n)
    ensures Proven(p, n)
  {
    hide WellFormed, Compute, Chosen, Refusal, BlockerTrue, TraversedTrue, FrontierTrue, Proven;
    MembersExactly(p, b, n);
    EvidenceIsTrue(p, b);
    var m :| m in Compute(p, b).walk.members && m.node == n;
    assert MemberTrue(p, m);
    ProvenExactly(p, n);
  }

  /** The graph can be walked from the seed: a donor function or method with a source. */
  ghost predicate Seeded(p: Problem) {
    && p.seed.origin == Donor && p.seed.kind in {Function, AsyncFunction, Method, AsyncMethod}
    && exists k :: 0 <= k < |p.graph.nodes| && p.graph.nodes[k].id == p.seed && p.graph.nodes[k].source.Some?
  }

  lemma SeededExactly(p: Problem)
    requires WellFormed(p.graph)
    ensures Seeded(p) <==> ValidSeed(p)
  {
    var nodes := p.graph.nodes;
    if SourceOf(nodes, p.seed).Some? {
      var k := SourceHasNode(nodes, p.seed);
      SourceOfNode(nodes, k);
    }
    forall k | 0 <= k < |nodes| && nodes[k].id == p.seed ensures SourceOf(nodes, p.seed) == nodes[k].source {
      SourceOfNode(nodes, k);
    }
  }

  /** Every file of the donor was parsed, and there is one. */
  ghost predicate Covered(p: Problem) {
    |p.graph.coverage.files| >= 1 && p.graph.coverage.parsedFiles == p.graph.coverage.files
  }

  /** The verdict of a walk that no budget stops, exactly and in terms of the
      graph, the rules and the verified sources: REJECT without a proper seed or
      for a dirty graph, COMPLETE for a clean one whose extraction is certified,
      and PARTIAL for a clean one whose extraction is not. */
  lemma UnstoppedVerdict(p: Problem, b: Budget)
    requires WellFormed(p.graph) && b.Valid() && !Compute(p, b).walk.budgetHit
    ensures Compute(p, b).status.RejectStatus? <==> !Seeded(p) || Dirty(p)
    ensures Compute(p, b).status.Complete? <==> Seeded(p) && !Dirty(p) && Covered(p)
    ensures Compute(p, b).status.Partial? <==> Seeded(p) && !Dirty(p) && !Covered(p)
  {
    hide WellFormed, ValidSeed, Run, Dirty, Seeded;
    SeededExactly(p);
    if Seeded(p) {
      if Compute(p, b).status.RejectStatus? { RejectMeansDirty(p, b); }
      if Dirty(p) { DirtyMeansReject(p, b); }
    }
  }
}
