/** What the budgets guarantee of every run, and what they guarantee only of a
    run that neither hit one nor met a rejection. */
module WalkBudgets {
  import opened Ordering
  import opened GraphModel
  import opened Walk
  import opened WalkInvariant
  import opened WalkPreserves
  import opened WalkCharges

  /** Bounds that hold in every run. */
  ghost predicate Bounded(p: Problem, b: Budget, w: State) {
    && (w.members != [] ==> !Oversized(p, b, w.members))
    && |w.queue| <= w.peakQueue <= b.maxQueueEntries
    && (forall q :: q in w.queue ==> q.depth <= b.maxDepth)
    && (forall n :: n in w.visited ==> w.visited[n] <= b.maxDepth)
    && (w.frontier != [] ==> w.budgetHit)
    && (!w.budgetHit ==> ConfigEntries(p) <= b.maxConfigEntries)
  }

  /** Work is within budget, unless the last examined edge was charged after
      its test: for its imports, and for its queue entry while that is queued. */
  ghost predicate WorkWithin(p: Problem, b: Budget, w: State) {
    || w.workUnits <= b.maxWorkUnits
    || (LastExamined(w.traversed).Some? && var e := LastExamined(w.traversed).value;
        if Includes(p, e.target) then w.queue != [] && w.workUnits <= b.maxWorkUnits + 2 * |SupportsOf(p, e)| + 1
        else w.workUnits <= b.maxWorkUnits + 2 * |SupportsOf(p, e)|)
  }

  /** So are external interfaces, unless the last examined edge's imports added some. */
  ghost predicate ExternalWithin(p: Problem, b: Budget, w: State) {
    || |w.external| <= b.maxExternalInterfaces
    || (LastExamined(w.traversed).Some? &&
        |w.external| <= b.maxExternalInterfaces + |ExternalAmong(p, SupportsOf(p, LastExamined(w.traversed).value))|)
  }

  /** Bounds that hold as long as nothing was rejected and no budget was hit. */
  ghost predicate Frugal(p: Problem, b: Budget, w: State) {
    !w.budgetHit && w.blockers == [] ==> w.edgesExamined <= b.maxEdges && WorkWithin(p, b, w) && ExternalWithin(p, b, w)
  }

  // ----- Examining edges -----

  lemma ExamineOneBounded(p: Problem, b: Budget, w: State, d: nat, e: Edge)
    requires Bounded(p, b, w)
    ensures Bounded(p, b, ExamineOne(p, b, w, d, e))
    ensures w.budgetHit ==> ExamineOne(p, b, w, d, e).budgetHit
  {
    hide Classify, Oversized, SupportAll, Exhausted;
    if e.provenance.binding.Some? {
      SupportAllCharges(p, Record(p, w, d, e), d + 1, e.provenance.binding.value, ImportEdges(p));
      SupportAllCharges(p, Enqueue(Record(p, w, d, e), d, e), d + 1, e.provenance.binding.value, ImportEdges(p));
    }
  }

  lemma UnionSize<T>(a: set<T>, c: set<T>)
    ensures |a + c| <= |a| + |c|
  {
  }

  lemma ExamineOneFrugal(p: Problem, b: Budget, w: State, d: nat, e: Edge)
    requires Frugal(p, b, w) && e.kind.Runtime()
    ensures Frugal(p, b, ExamineOne(p, b, w, d, e))
  {
    hide Classify, SupportAll, SupportsOf, ExternalAmong, LastExamined;
    var w1, w' := Record(p, w, d, e), ExamineOne(p, b, w, d, e);
    if !w'.budgetHit && w'.blockers == [] {
      ExamineOneCharges(p, b, w, d, e);
      UnionSize(w1.external, ExternalAmong(p, SupportsOf(p, e)));
    }
  }

  lemma {:induction false} ExamineAllWithin(p: Problem, b: Budget, w: State, d: nat, edges: seq<Edge>)
    requires Bounded(p, b, w) && Frugal(p, b, w) && forall e :: e in edges ==> e.kind.Runtime()
    ensures Bounded(p, b, ExamineAll(p, b, w, d, edges)) && Frugal(p, b, ExamineAll(p, b, w, d, edges))
    decreases |edges|
  {
    hide Bounded, Frugal, ExamineOne;
    if edges != [] {
      ExamineOneBounded(p, b, w, d, edges[0]);
      ExamineOneFrugal(p, b, w, d, edges[0]);
      ExamineAllWithin(p, b, ExamineOne(p, b, w, d, edges[0]), d, edges[1..]);
    }
  }

  // ----- Taking nested owners -----

  lemma VisitOneWithin(p: Problem, b: Budget, w: State, at: Frontier, n: NodeId)
    requires Bounded(p, b, w) && Frugal(p, b, w) && at.depth <= b.maxDepth
    ensures Bounded(p, b, VisitOne(p, b, w, at, n)) && Frugal(p, b, VisitOne(p, b, w, at, n))
  {
    hide Oversized, UnresolvedOf, ConfigEntries, SupportsOf, ExternalAmong, LastExamined;
  }

  lemma {:induction false} VisitAllWithin(
      p: Problem, b: Budget, w: State, at: Frontier, owners: seq<NodeId>, todo: seq<NodeId>)
    requires Bounded(p, b, w) && Frugal(p, b, w) && at.depth <= b.maxDepth
    ensures var w' := VisitAll(p, b, w, at, owners, todo).0; Bounded(p, b, w') && Frugal(p, b, w')
    decreases |todo|
  {
    hide Bounded, Frugal, VisitOne;
    if todo != [] && !w.budgetHit {
      var n := todo[0];
      VisitOneWithin(p, b, w, at, n);
      var w1 := VisitOne(p, b, w, at, n);
      var taken := !w1.budgetHit && (n !in w.visited || w.visited[n] > at.depth);
      VisitAllWithin(p, b, w1, at, if taken then owners + [n] else owners, todo[1..]);
    }
  }

  // ----- A whole iteration -----

  lemma ExpandWithin(p: Problem, b: Budget, w: State, at: Frontier)
    requires Bounded(p, b, w) && Frugal(p, b, w) && at.depth <= b.maxDepth
    ensures Bounded(p, b, Expand(p, b, w, at)) && Frugal(p, b, Expand(p, b, w, at))
  {
    hide Bounded, Frugal, VisitAll, ExamineAll, Nested, EdgesOf, Sort;
    var (w1, owners) := VisitAll(p, b, w, at, [at.node], Nested(p, at.node));
    VisitAllWithin(p, b, w, at, [at.node], Nested(p, at.node));
    if !w1.budgetHit {
      var edges := Sort(EdgeLess, EdgesOf(p, owners));
      SameMembers(edges, EdgesOf(p, owners));
      forall e | e in edges ensures e.kind.Runtime() { EdgesOfRuntime(p, owners, e); }
      ExamineAllWithin(p, b, w1, at.depth, edges);
    }
  }

  lemma ReachWithin(p: Problem, b: Budget, w: State, at: Frontier)
    requires Bounded(p, b, w) && Frugal(p, b, w) && at.depth <= b.maxDepth
    ensures Bounded(p, b, Reach(p, b, w, at)) && Frugal(p, b, Reach(p, b, w, at))
  {
    hide Refusal, Oversized, Expand, UnresolvedOf, ConfigEntries, SupportsOf, ExternalAmong, LastExamined;
    if Refusal(p, at.node).None? && !Oversized(p, b, w.members + [MemberOf(p, at.node)]) {
      ExpandWithin(p, b, Admit(p, w, MemberOf(p, at.node)), at);
    }
  }

  lemma StepWithin(p: Problem, b: Budget, w: State, d: nat)
    requires Lawful(p) && Inv(p, w, d) && Running(w)
    requires Bounded(p, b, w) && Frugal(p, b, w)
    ensures Bounded(p, b, Step(p, b, w)) && Frugal(p, b, Step(p, b, w))
  {
    hide Inv, Lawful, Least, Reach, Oversized, ConfigEntries, SupportsOf, ExternalAmong, LastExamined;
    StepKeeps(p, b, w, d);
    var e, r := Popped(w), Rest(w);
    assert e in w.queue;
    RemoveAtMembers(w.queue, Least(w.queue));
    if r.workUnits <= b.maxWorkUnits && e.node !in w.visited {
      var w1 := r.(visited := r.visited[e.node := e.depth]);
      ReachWithin(p, b, w1, Frontier(e.depth, e.node, e.incoming));
    }
  }

  lemma StartWithin(p: Problem, b: Budget)
    requires b.Valid() || !Start(p, b).budgetHit
    ensures Bounded(p, b, Start(p, b)) && Frugal(p, b, Start(p, b))
  {
  }

  lemma {:induction false} RunWithin(p: Problem, b: Budget, w: State, d: nat)
    requires Lawful(p) && Inv(p, w, d)
    requires Bounded(p, b, w) && Frugal(p, b, w)
    ensures Bounded(p, b, Run(p, b, w)) && Frugal(p, b, Run(p, b, w))
    decreases WorkLeft(b, w), MayRun(w)
  {
    hide Inv, Lawful, Step, Bounded, Frugal;
    if Running(w) {
      StepKeeps(p, b, w, d);
      StepWithin(p, b, w, d);
      StepSpends(p, b, w);
      RunWithin(p, b, Step(p, b, w), Popped(w).depth);
    }
  }
}
