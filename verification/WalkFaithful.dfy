/** The evidence of a walk is true: members are verified, blockers and frontier
    entries have real causes, and every recorded disposition is the policy's. */
module WalkFaithful {
  import opened Ordering
  import opened GraphModel
  import opened Walk
  import opened WalkInvariant
  import opened WalkPreserves

  ghost predicate MemberTrue(p: Problem, m: Member) {
    Refusal(p, m.node).None? && m == MemberOf(p, m.node)
  }

  /** A runtime edge out of a visited node justifies recording itself one level
      below, and the import edges that prove its binding. */
  ghost predicate Justifies(p: Problem, visited: map<NodeId, nat>, e: Edge, t: EdgeEvidence) {
    && e.source in visited && e in Outgoing(p, e.source) && t.depth == visited[e.source] + 1
    && (t.edge == e || (!Rejects(p, e) && SupportOf(p, e, t.edge)))
  }

  predicate SupportOf(p: Problem, e: Edge, imp: Edge) {
    imp in ImportEdges(p) && e.provenance.binding.Some? && Supports(imp, e.provenance.binding.value)
  }

  /** A traversed edge carries the policy's disposition and is justified by a runtime edge. */
  ghost predicate TraversedTrue(p: Problem, visited: map<NodeId, nat>, t: EdgeEvidence) {
    && t.disposition == Classify(p, t.edge.target, Some(t.edge)).disposition
    && t.ruleId == Classify(p, t.edge.target, Some(t.edge)).ruleId
    && (exists e :: Justifies(p, visited, e, t))
  }

  /** A blocker is an unresolved reference of a visited node, the refusal of a
      visited node, or the rejection of a traversed edge. */
  ghost predicate BlockerTrue(p: Problem, visited: map<NodeId, nat>, traversed: seq<EdgeEvidence>, b: Blocker) {
    match b
    case Unresolved(u) => u.source in visited && u in UnresolvedOf(p, u.source)
    case Rejected(ev) =>
      || (ev.target in visited && Refusal(p, ev.target).Some? && ev == SourceRejection(p, ev.target, ev.edge))
      || (exists t :: t in traversed && ev == Classify(p, t.edge.target, Some(t.edge)) && ev.disposition.Reject?)
  }

  /** A frontier entry is the seed, or the target of an edge out of a visited node, at its proper depth. */
  ghost predicate FrontierTrue(p: Problem, visited: map<NodeId, nat>, f: Frontier) {
    match f.incoming
    case None => f.depth == 0 && f.node == p.seed
    case Some(e) =>
      e.target == f.node && e.source in visited && f.depth == visited[e.source] + 1 && e in Outgoing(p, e.source)
  }

  function ExternalTargets(traversed: seq<EdgeEvidence>): set<NodeId> {
    set t | t in traversed && t.disposition.External? :: t.edge.target
  }

  ghost predicate Faithful(p: Problem, w: State) {
    && (forall m :: m in w.members ==> MemberTrue(p, m))
    && (forall t :: t in w.traversed ==> TraversedTrue(p, w.visited, t))
    && (forall b :: b in w.blockers ==> BlockerTrue(p, w.visited, w.traversed, b))
    && (forall f :: f in w.frontier ==> FrontierTrue(p, w.visited, f))
    && w.external == ExternalTargets(w.traversed)
  }

  // ----- Growth keeps evidence true -----

  ghost predicate Grows(v: map<NodeId, nat>, v': map<NodeId, nat>) {
    forall n :: n in v ==> n in v' && v'[n] == v[n]
  }

  lemma FaithfulGrows(p: Problem, w: State, w': State)
    requires Faithful(p, w) && Grows(w.visited, w'.visited)
    requires w'.members == w.members && w'.traversed == w.traversed && w'.blockers == w.blockers
    requires w'.frontier == w.frontier && w'.external == w.external
    ensures Faithful(p, w')
  {
    hide Classify, Refusal, UnresolvedOf, Outgoing, MemberTrue, SupportOf, Rejects;
    forall t | t in w'.traversed ensures TraversedTrue(p, w'.visited, t) {
      assert TraversedTrue(p, w.visited, t);
      var e :| Justifies(p, w.visited, e, t);
      assert Justifies(p, w'.visited, e, t);
    }
    forall b | b in w'.blockers
      ensures BlockerTrue(p, w'.visited, w'.traversed, b)
    {
      assert BlockerTrue(p, w.visited, w.traversed, b);
    }
    forall f | f in w'.frontier ensures FrontierTrue(p, w'.visited, f) { assert FrontierTrue(p, w.visited, f); }
  }

  lemma FaithfulDefer(p: Problem, w: State, at: Frontier)
    requires Faithful(p, w) && FrontierTrue(p, w.visited, at)
    ensures Faithful(p, Defer(w, at))
  {
    hide TraversedTrue, BlockerTrue, FrontierTrue, MemberTrue;
  }

  lemma FaithfulNote(p: Problem, w: State, n: NodeId)
    requires Faithful(p, w) && n in w.visited
    ensures Faithful(p, NoteUnresolved(w, UnresolvedOf(p, n)))
  {
    hide TraversedTrue, FrontierTrue, MemberTrue, UnresolvedOf;
    var items := UnresolvedOf(p, n);
    var w' := NoteUnresolved(w, items);
    forall b | b in w'.blockers ensures BlockerTrue(p, w'.visited, w'.traversed, b) {
      if b in w.blockers {
        assert BlockerTrue(p, w.visited, w.traversed, b);
      } else {
        var k :| 0 <= k < |items| && AsBlockers(items)[k] == b;
        assert items[k] in items;
        UnresolvedIs(p, n, items[k]);
      }
    }
  }

  lemma UnresolvedIs(p: Problem, n: NodeId, u: UnresolvedEdge)
    requires u in UnresolvedOf(p, n)
    ensures u.source == n
  {
    UnresolvedAmongMembers(p.graph.unresolved, n, u);
  }

  lemma FaithfulMember(p: Problem, w: State, m: Member)
    requires Faithful(p, w) && MemberTrue(p, m)
    ensures Faithful(p, w.(members := w.members + [m]))
  {
    hide TraversedTrue, BlockerTrue, FrontierTrue, MemberTrue;
  }

  lemma FaithfulRefusal(p: Problem, w: State, n: NodeId, incoming: Option<Edge>)
    requires Faithful(p, w) && n in w.visited && Refusal(p, n).Some?
    ensures Faithful(p, RecordRejection(w, SourceRejection(p, n, incoming)))
  {
    hide TraversedTrue, FrontierTrue, MemberTrue, Refusal;
    var ev := SourceRejection(p, n, incoming);
    var w' := RecordRejection(w, ev);
    forall b | b in w'.blockers ensures BlockerTrue(p, w'.visited, w'.traversed, b) {
      if b in w.blockers { assert BlockerTrue(p, w.visited, w.traversed, b); }
    }
  }

  lemma ExternalAppend(traversed: seq<EdgeEvidence>, t: EdgeEvidence)
    ensures ExternalTargets(traversed + [t]) ==
            ExternalTargets(traversed) + (if t.disposition.External? then {t.edge.target} else {})
  {
    assert t in traversed + [t];
    forall n
      ensures n in ExternalTargets(traversed + [t]) <==>
              n in ExternalTargets(traversed) + (if t.disposition.External? then {t.edge.target} else {})
    {
      if n in ExternalTargets(traversed) {
        var x :| x in traversed && x.disposition.External? && x.edge.target == n;
        assert x in traversed + [t];
      }
    }
  }

  /** Recording one more true traversal, with its rejection or external target, keeps everything true. */
  lemma FaithfulTraverse(p: Problem, w: State, w': State, t: EdgeEvidence)
    requires Faithful(p, w) && TraversedTrue(p, w.visited, t)
    requires w'.members == w.members && w'.visited == w.visited && w'.frontier == w.frontier
    requires w'.traversed == w.traversed + [t]
    requires var ev := Classify(p, t.edge.target, Some(t.edge));
             && w'.blockers == (if ev.disposition.Reject? then w.blockers + [Rejected(ev)] else w.blockers)
             && w'.external == (if ev.disposition.External? then w.external + {t.edge.target} else w.external)
    ensures Faithful(p, w')
  {
    hide Classify, FrontierTrue, MemberTrue, Refusal, UnresolvedOf;
    ExternalAppend(w.traversed, t);
    assert t in w'.traversed;
    forall b | b in w'.blockers ensures BlockerTrue(p, w'.visited, w'.traversed, b) {
      if b in w.blockers {
        assert BlockerTrue(p, w.visited, w.traversed, b);
        assert forall x :: x in w.traversed ==> x in w'.traversed;
      }
    }
  }

  lemma FaithfulSupport(p: Problem, w: State, d: nat, e: Edge, imp: Edge)
    requires Faithful(p, w) && e.source in w.visited && w.visited[e.source] == d && e in Outgoing(p, e.source)
    requires !Rejects(p, e) && SupportOf(p, e, imp)
    ensures Faithful(p, SupportOne(p, w, d + 1, imp)) && SupportOne(p, w, d + 1, imp).visited == w.visited
  {
    hide Faithful, Classify, Rejects, SupportOf, Outgoing;
    var ev := Classify(p, imp.target, Some(imp));
    var t := EdgeEvidence(d + 1, imp, ev.disposition, ev.ruleId);
    assert Justifies(p, w.visited, e, t);
    FaithfulTraverse(p, w, SupportOne(p, w, d + 1, imp), t);
  }

  lemma {:induction false} FaithfulSupports(p: Problem, w: State, d: nat, e: Edge, imports: seq<Edge>)
    requires Faithful(p, w) && e.source in w.visited && w.visited[e.source] == d && e in Outgoing(p, e.source)
    requires !Rejects(p, e) && e.provenance.binding.Some?
    requires forall imp :: imp in imports ==> imp in ImportEdges(p)
    ensures Faithful(p, SupportAll(p, w, d + 1, e.provenance.binding.value, imports))
    decreases |imports|
  {
    hide Faithful, SupportOne, Rejects, Outgoing, ImportEdges;
    if imports != [] {
      var imp, binding := imports[0], e.provenance.binding.value;
      assert imp in ImportEdges(p);
      if Supports(imp, binding) { FaithfulSupport(p, w, d, e, imp); }
      FaithfulSupports(p, if Supports(imp, binding) then SupportOne(p, w, d + 1, imp) else w, d, e, imports[1..]);
    }
  }

  lemma FaithfulRecord(p: Problem, w: State, d: nat, e: Edge)
    requires Faithful(p, w) && e.source in w.visited && w.visited[e.source] == d && e in Outgoing(p, e.source)
    ensures Faithful(p, Record(p, w, d, e))
  {
    hide Faithful, Classify, Outgoing, SupportOf;
    var ev := Classify(p, e.target, Some(e));
    var t := EdgeEvidence(d + 1, e, ev.disposition, ev.ruleId);
    assert Justifies(p, w.visited, e, t);
    FaithfulTraverse(p, w, Record(p, w, d, e), t);
  }

  lemma FaithfulExamine(p: Problem, b: Budget, w: State, d: nat, e: Edge)
    requires Lawful(p) && Faithful(p, w) && e.source in w.visited && w.visited[e.source] == d &&
             e in Outgoing(p, e.source)
    ensures Faithful(p, ExamineOne(p, b, w, d, e)) && ExamineOne(p, b, w, d, e).visited == w.visited
  {
    hide Faithful, Classify, SupportAll, Exhausted, Outgoing, Nested;
    FaithfulRecord(p, w, d, e);
    var w1 := Record(p, w, d, e);
    FaithfulDefer(p, w1, Frontier(d + 1, e.target, Some(e)));
    FaithfulGrows(p, w1, Enqueue(w1, d, e));
    if e.provenance.binding.Some? && !Rejects(p, e) {
      var binding := e.provenance.binding.value;
      FaithfulSupports(p, w1, d, e, ImportEdges(p));
      FaithfulSupports(p, Enqueue(w1, d, e), d, e, ImportEdges(p));
      SupportAllKeeps(p, w1, d + 1, binding, ImportEdges(p));
      SupportAllKeeps(p, Enqueue(w1, d, e), d + 1, binding, ImportEdges(p));
    }
  }

  lemma {:induction false} FaithfulExamineAll(p: Problem, b: Budget, w: State, d: nat, edges: seq<Edge>)
    requires Lawful(p) && Faithful(p, w)
    requires forall e :: e in edges ==> e.source in w.visited && w.visited[e.source] == d && e in Outgoing(p, e.source)
    ensures Faithful(p, ExamineAll(p, b, w, d, edges))
    decreases |edges|
  {
    hide Faithful, Lawful, ExamineOne, Outgoing;
    if edges != [] {
      assert edges[0] in edges;
      FaithfulExamine(p, b, w, d, edges[0]);
      FaithfulExamineAll(p, b, ExamineOne(p, b, w, d, edges[0]), d, edges[1..]);
    }
  }

  lemma {:induction false} FaithfulVisitAll(
      p: Problem, b: Budget, w: State, at: Frontier, owners: seq<NodeId>, todo: seq<NodeId>)
    requires Faithful(p, w) && FrontierTrue(p, w.visited, at)
    requires forall n :: n in w.visited ==> w.visited[n] <= at.depth
    ensures Faithful(p, VisitAll(p, b, w, at, owners, todo).0)
    decreases |todo|
  {
    hide Faithful, UnresolvedOf, Outgoing;
    if todo != [] && !w.budgetHit {
      var n := todo[0];
      var w0 := w.(workUnits := w.workUnits + 1);
      FaithfulGrows(p, w, w0);
      FaithfulDefer(p, w0, at);
      if n !in w.visited {
        var w1 := w0.(visited := w0.visited[n := at.depth]);
        FaithfulGrows(p, w0, w1);
        FaithfulNote(p, w1, n);
      }
      var w' := VisitOne(p, b, w, at, n);
      assert Faithful(p, w');
      var taken := !w'.budgetHit && (n !in w.visited || w.visited[n] > at.depth);
      FaithfulVisitAll(p, b, w', at, if taken then owners + [n] else owners, todo[1..]);
    }
  }

  lemma FaithfulExpand(p: Problem, b: Budget, w: State, at: Frontier)
    requires Faithful(p, w) && FrontierTrue(p, w.visited, at)
    requires Visiting(p, w, at, [at.node], Nested(p, at.node)) && !w.budgetHit
    ensures Faithful(p, Expand(p, b, w, at))
  {
    hide Faithful, VisitAll, ExamineAll, Nested, Outgoing, Kept, Tally, FrontierTrue, ReachedAt, Queued, Lawful;
    var (w1, owners) := VisitAll(p, b, w, at, [at.node], Nested(p, at.node));
    VisitAllKeeps(p, b, w, at, [at.node], Nested(p, at.node));
    assert forall n :: n in w.visited ==> w.visited[n] <= at.depth by { ViewFields(w); }
    FaithfulVisitAll(p, b, w, at, [at.node], Nested(p, at.node));
    if !w1.budgetHit {
      var edges := Sort(EdgeLess, EdgesOf(p, owners));
      SameMembers(edges, EdgesOf(p, owners));
      forall e | e in edges
        ensures e.source in w1.visited && w1.visited[e.source] == at.depth && e in Outgoing(p, e.source)
      {
        LawfulEdges(p, owners, e);
        ViewFields(w1);
      }
      FaithfulExamineAll(p, b, w1, at.depth, edges);
    }
  }

  lemma FaithfulReach(p: Problem, b: Budget, w: State, at: Frontier)
    requires Faithful(p, w) && FrontierTrue(p, w.visited, at) && Reached(p, w, at) && !w.budgetHit
    ensures Faithful(p, Reach(p, b, w, at))
  {
    hide Faithful, Refusal, Oversized, Expand, FrontierTrue, Kept, Depths, Tally, Lawful, UnresolvedOf;
    if Refusal(p, at.node).Some? {
      FaithfulRefusal(p, w, at.node, at.incoming);
    } else {
      var m := MemberOf(p, at.node);
      FaithfulDefer(p, w, at);
      FaithfulMember(p, w, m);
      FaithfulNote(p, w.(members := w.members + [m]), at.node);
      AdmitVisits(p, w, at, m);
      if !Oversized(p, b, w.members + [m]) { FaithfulExpand(p, b, Admit(p, w, m), at); }
    }
  }

  lemma QueuedIsFrontier(p: Problem, visited: map<NodeId, nat>, e: Entry)
    requires Queued(p, visited, e)
    ensures FrontierTrue(p, visited, Frontier(e.depth, e.node, e.incoming))
  {
  }

  lemma FrontierGrows(p: Problem, v: map<NodeId, nat>, v': map<NodeId, nat>, f: Frontier)
    requires FrontierTrue(p, v, f) && Grows(v, v')
    ensures FrontierTrue(p, v', f)
  {
  }

  lemma FaithfulStep(p: Problem, b: Budget, w: State, d: nat)
    requires Lawful(p) && Inv(p, w, d) && Running(w) && Faithful(p, w)
    ensures Faithful(p, Step(p, b, w))
  {
    hide Faithful, Kept, Depths, Tally, Least, Lawful, Reach, Reached, Queued, ViewOf, FrontierTrue;
    PopDepth(p, w, d);
    var e, r := Popped(w), Rest(w);
    FaithfulGrows(p, w, r);
    if r.workUnits > b.maxWorkUnits {
      FaithfulGrows(p, r, r.(queue := r.queue + [Entry(e.depth, w.serial, e.node, e.incoming)], budgetHit := true));
    } else if e.node !in w.visited {
      var at := Frontier(e.depth, e.node, e.incoming);
      var w1 := r.(visited := r.visited[e.node := e.depth]);
      PopReaches(p, w, d);
      FaithfulGrows(p, r, w1);
      QueuedIsFrontier(p, w.visited, e);
      FrontierGrows(p, w.visited, w1.visited, at);
      FaithfulReach(p, b, w1, at);
    }
  }

  lemma {:induction false} FaithfulRun(p: Problem, b: Budget, w: State, d: nat)
    requires Lawful(p) && Inv(p, w, d) && Faithful(p, w)
    ensures Faithful(p, Run(p, b, w))
    decreases WorkLeft(b, w), MayRun(w)
  {
    hide Inv, Lawful, Step, Faithful;
    if Running(w) {
      FaithfulStep(p, b, w, d);
      StepKeeps(p, b, w, d);
      StepSpends(p, b, w);
      FaithfulRun(p, b, Step(p, b, w), Popped(w).depth);
    }
  }

  /** Every run's evidence is true, whatever its verdict, including the frontier that the verdict reports. */
  lemma EvidenceIsTrue(p: Problem, b: Budget)
    requires WellFormed(p.graph) && ValidSeed(p)
    ensures var o := Compute(p, b);
            && Faithful(p, o.walk)
            && (forall f :: f in o.frontier ==> FrontierTrue(p, o.walk.visited, f))
  {
    hide Inv, Lawful, Faithful, Run;
    WellFormedIsLawful(p);
    StartKeeps(p, b);
    assert Faithful(p, Start(p, b)) by { StartIsTrue(p, b); }
    FaithfulRun(p, b, Start(p, b), 0);
    var w := Run(p, b, Start(p, b));
    var d := RunKeeps(p, b, Start(p, b), 0);
    LeftoverIsTrue(p, w, d);
  }

  lemma StartIsTrue(p: Problem, b: Budget)
    ensures Faithful(p, Start(p, b))
  {
    assert ExternalTargets([]) == {};
  }

  lemma LeftoverIsTrue(p: Problem, w: State, d: nat)
    requires Inv(p, w, d) && Faithful(p, w)
    ensures forall f :: f in w.frontier + Leftover(w.visited, w.queue) ==> FrontierTrue(p, w.visited, f)
  {
    hide Kept, Tally, MemberTrue, TraversedTrue, BlockerTrue, Outgoing, Includes;
    var rest := Leftover(w.visited, w.queue);
    forall f | f in rest ensures FrontierTrue(p, w.visited, f) {
      var k :| 0 <= k < |rest| && rest[k] == f;
      assert w.queue[k] in ViewOf(w).queue;
      assert Queued(p, w.visited, w.queue[k]);
    }
  }

  /** A rejection always has a true cause: the seed is unusable, or the walk
      visited a refused node, an unresolved reference, or a rejected edge. */
  lemma RejectHasCause(p: Problem, b: Budget) returns (cause: Blocker)
    requires WellFormed(p.graph) && ValidSeed(p) && Compute(p, b).status.RejectStatus?
    ensures cause in Compute(p, b).blockers
    ensures BlockerTrue(p, Compute(p, b).walk.visited, Compute(p, b).walk.traversed, cause)
  {
    hide Run, BlockerTrue;
    EvidenceIsTrue(p, b);
    var w := Run(p, b, Start(p, b));
    cause := w.blockers[0];
    assert cause in w.blockers;
  }
}
