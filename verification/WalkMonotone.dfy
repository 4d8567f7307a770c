/** Two runs compared: how the verdict moves when budgets are raised. */
module WalkMonotone {
  import opened Ordering
  import opened GraphModel
  import opened Walk
  import opened WalkInvariant

  // ----- A run that hits no budget is the same under any larger one -----

  lemma OversizedShrinks(p: Problem, b: Budget, b': Budget, members: seq<Member>)
    requires b.AtMost(b') && Oversized(p, b', members)
    ensures Oversized(p, b, members)
  {
    var total := |DonorLines(p)|;
    assert total * b.maxDonorSourceBps <= total * b'.maxDonorSourceBps;
  }

  lemma ExamineOneSticky(p: Problem, b: Budget, w: State, d: nat, e: Edge)
    requires w.budgetHit
    ensures ExamineOne(p, b, w, d, e).budgetHit
  {
    hide Classify, Exhausted, SupportAll;
    if e.provenance.binding.Some? {
      SupportAllHit(p, Record(p, w, d, e), d + 1, e.provenance.binding.value, ImportEdges(p));
      SupportAllHit(p, Enqueue(Record(p, w, d, e), d, e), d + 1, e.provenance.binding.value, ImportEdges(p));
    }
  }

  lemma {:induction false} SupportAllHit(p: Problem, w: State, depth: nat, binding: SourceRef, imports: seq<Edge>)
    ensures SupportAll(p, w, depth, binding, imports).budgetHit == w.budgetHit
    decreases |imports|
  {
    hide Classify;
    if imports != [] {
      SupportAllHit(p, if Supports(imports[0], binding)
          then SupportOne(p, w, depth, imports[0]) else w, depth, binding, imports[1..]);
    }
  }

  lemma {:induction false} ExamineAllSticky(p: Problem, b: Budget, w: State, d: nat, edges: seq<Edge>)
    requires w.budgetHit
    ensures ExamineAll(p, b, w, d, edges).budgetHit
    decreases |edges|
  {
    hide ExamineOne;
    if edges != [] {
      ExamineOneSticky(p, b, w, d, edges[0]);
      ExamineAllSticky(p, b, ExamineOne(p, b, w, d, edges[0]), d, edges[1..]);
    }
  }

  lemma ExamineOneSame(p: Problem, b: Budget, b': Budget, w: State, d: nat, e: Edge)
    requires b.AtMost(b') && !ExamineOne(p, b, w, d, e).budgetHit
    ensures ExamineOne(p, b', w, d, e) == ExamineOne(p, b, w, d, e)
  {
    hide Classify, SupportAll;
  }

  lemma {:induction false} ExamineAllSame(p: Problem, b: Budget, b': Budget, w: State, d: nat, edges: seq<Edge>)
    requires b.AtMost(b') && !ExamineAll(p, b, w, d, edges).budgetHit
    ensures ExamineAll(p, b', w, d, edges) == ExamineAll(p, b, w, d, edges)
    decreases |edges|
  {
    hide ExamineOne;
    if edges != [] {
      var w1 := ExamineOne(p, b, w, d, edges[0]);
      if w1.budgetHit { ExamineAllSticky(p, b, w1, d, edges[1..]); }
      ExamineOneSame(p, b, b', w, d, edges[0]);
      ExamineAllSame(p, b, b', w1, d, edges[1..]);
    }
  }

  lemma {:induction false} VisitAllSame(
      p: Problem, b: Budget, b': Budget, w: State, at: Frontier, owners: seq<NodeId>, todo: seq<NodeId>)
    requires b.AtMost(b') && !VisitAll(p, b, w, at, owners, todo).0.budgetHit
    ensures VisitAll(p, b', w, at, owners, todo) == VisitAll(p, b, w, at, owners, todo)
    decreases |todo|
  {
    hide UnresolvedOf;
    if todo != [] && !w.budgetHit {
      var n := todo[0];
      var w1 := VisitOne(p, b, w, at, n);
      var taken := !w1.budgetHit && (n !in w.visited || w.visited[n] > at.depth);
      VisitAllSame(p, b, b', w1, at, if taken then owners + [n] else owners, todo[1..]);
    }
  }

  lemma ExpandSame(p: Problem, b: Budget, b': Budget, w: State, at: Frontier)
    requires b.AtMost(b') && !Expand(p, b, w, at).budgetHit
    ensures Expand(p, b', w, at) == Expand(p, b, w, at)
  {
    hide VisitAll, ExamineAll, Nested, EdgesOf, Sort;
    VisitAllSame(p, b, b', w, at, [at.node], Nested(p, at.node));
    var (w1, owners) := VisitAll(p, b, w, at, [at.node], Nested(p, at.node));
    ExamineAllSame(p, b, b', w1, at.depth, Sort(EdgeLess, EdgesOf(p, owners)));
  }

  lemma StepSame(p: Problem, b: Budget, b': Budget, w: State)
    requires b.AtMost(b') && Running(w) && !Step(p, b, w).budgetHit
    ensures Step(p, b', w) == Step(p, b, w)
  {
    hide Expand, Oversized, Refusal, Least;
    var i := Least(w.queue);
    var e := w.queue[i];
    var at := Frontier(EntryDepth(w.visited, e.incoming), e.node, e.incoming);
    var w1 := w.(queue := RemoveAt(w.queue, i), workUnits := w.workUnits + 1, visited := w.visited[e.node := at.depth]);
    if Refusal(p, at.node).None? {
      var m := MemberOf(p, at.node);
      if Oversized(p, b', w1.members + [m]) { OversizedShrinks(p, b, b', w1.members + [m]); }
      if !Expand(p, b, Admit(p, w1, m), at).budgetHit { ExpandSame(p, b, b', Admit(p, w1, m), at); }
    }
  }

  lemma {:induction false} RunSame(p: Problem, b: Budget, b': Budget, w: State)
    requires b.AtMost(b') && !Run(p, b, w).budgetHit
    ensures Run(p, b', w) == Run(p, b, w)
    decreases WorkLeft(b, w), MayRun(w)
  {
    hide Step;
    if Running(w) {
      StepSpends(p, b, w);
      StepSame(p, b, b', w);
      RunSame(p, b, b', Step(p, b, w));
    }
  }

  /** A complete verdict, with its members, dispositions and everything else, survives every larger budget. */
  lemma CompleteIsMonotone(p: Problem, b: Budget, b': Budget)
    requires b.AtMost(b') && Compute(p, b).status.Complete?
    ensures Compute(p, b') == Compute(p, b)
  {
    hide Run;
    assert Start(p, b) == Start(p, b').(budgetHit := Start(p, b).budgetHit);
    assert !Start(p, b).budgetHit by {
      if Start(p, b).budgetHit { assert Run(p, b, Start(p, b)) == Start(p, b) by { RunStopped(p, b, Start(p, b)); } }
    }
    RunSame(p, b, b', Start(p, b));
  }

  lemma RunStopped(p: Problem, b: Budget, w: State)
    requires !Running(w)
    ensures Run(p, b, w) == w
  {
  }

  // ----- Rejections -----

  predicate Subsumed(a: seq<Blocker>, c: seq<Blocker>) { forall x :: x in a ==> x in c }

  function RecordRejects(p: Problem, e: Edge): seq<Blocker> {
    if Rejects(p, e) then [Rejected(Classify(p, e.target, Some(e)))] else []
  }

  /** The rejections an edge's import support can bring. */
  function SupportRejects(p: Problem, binding: SourceRef, imports: seq<Edge>): seq<Blocker> {
    if imports == [] then []
    else
      (if Supports(imports[0], binding) then RecordRejects(p, imports[0]) else []) +
      SupportRejects(p, binding, imports[1..])
  }

  function EdgeSupportRejects(p: Problem, e: Edge): seq<Blocker> {
    if e.provenance.binding.None? then [] else SupportRejects(p, e.provenance.binding.value, ImportEdges(p))
  }

  lemma {:induction false} SupportAllBlockers(p: Problem, w: State, depth: nat, binding: SourceRef, imports: seq<Edge>)
    ensures SupportAll(p, w, depth, binding, imports).blockers == w.blockers + SupportRejects(p, binding, imports)
    decreases |imports|
  {
    hide Classify;
    if imports != [] {
      var w1 := if Supports(imports[0], binding) then SupportOne(p, w, depth, imports[0]) else w;
      SupportAllBlockers(p, w1, depth, binding, imports[1..]);
      assert w1.blockers == w.blockers + (if Supports(imports[0], binding) then RecordRejects(p, imports[0]) else []);
    }
  }

  /** An examined edge always records its own rejection; it records those of its
      import support exactly when it is not rejected and no budget stops it. */
  lemma ExamineOneBlockers(p: Problem, b: Budget, w: State, d: nat, e: Edge)
    ensures var w1, w' := Record(p, w, d, e), ExamineOne(p, b, w, d, e);
            && w1.blockers == w.blockers + RecordRejects(p, e)
            && (w'.blockers == w1.blockers || w'.blockers == w1.blockers + EdgeSupportRejects(p, e))
            && (!w'.budgetHit && !Rejects(p, e) ==> w'.blockers == w1.blockers + EdgeSupportRejects(p, e))
            && (Rejects(p, e) || Exhausted(b, w1) ==> w'.blockers == w1.blockers)
  {
    hide Classify, Exhausted, SupportAll, SupportRejects;
    if e.provenance.binding.Some? {
      SupportAllBlockers(p, Record(p, w, d, e), d + 1, e.provenance.binding.value, ImportEdges(p));
      SupportAllBlockers(p, Enqueue(Record(p, w, d, e), d, e), d + 1, e.provenance.binding.value, ImportEdges(p));
    }
  }

  /** If the larger run passes an expansion without hitting a budget, it finds every rejection the smaller one found. */
  lemma {:induction false} ExamineAllUnhit(
      p: Problem, b: Budget, b': Budget, w: State, w': State, d: nat, edges: seq<Edge>)
    requires Subsumed(w.blockers, w'.blockers) && !ExamineAll(p, b', w', d, edges).budgetHit
    ensures Subsumed(ExamineAll(p, b, w, d, edges).blockers, ExamineAll(p, b', w', d, edges).blockers)
    decreases |edges|
  {
    hide ExamineOne, RecordRejects, EdgeSupportRejects, Rejects, Exhausted;
    if edges != [] {
      var e := edges[0];
      var u, u' := ExamineOne(p, b, w, d, e), ExamineOne(p, b', w', d, e);
      if u'.budgetHit { ExamineAllSticky(p, b', u', d, edges[1..]); }
      ExamineOneBlockers(p, b, w, d, e);
      ExamineOneBlockers(p, b', w', d, e);
      assert Subsumed(u.blockers, u'.blockers);
      ExamineAllUnhit(p, b, b', u, u', d, edges[1..]);
    }
  }

  /** The rejection of some import edge. */
  ghost predicate ImportBlocker(p: Problem, x: Blocker) {
    exists imp :: imp in ImportEdges(p) && Rejects(p, imp) && x == Rejected(Classify(p, imp.target, Some(imp)))
  }

  /** Everything in `a` is in `c`; a loose comparison overlooks rejected imports. */
  ghost predicate Covers(p: Problem, loose: bool, a: seq<Blocker>, c: seq<Blocker>) {
    forall x :: x in a ==> x in c || (loose && ImportBlocker(p, x))
  }

  lemma {:induction false} SupportIsImport(p: Problem, binding: SourceRef, imports: seq<Edge>, x: Blocker)
    requires (forall imp :: imp in imports ==> imp in ImportEdges(p)) && x in SupportRejects(p, binding, imports)
    ensures ImportBlocker(p, x)
    decreases |imports|
  {
    hide Rejects, Classify, ImportEdges;
    if x in SupportRejects(p, binding, imports[1..]) {
      SupportIsImport(p, binding, imports[1..], x);
    } else {
      assert imports[0] in ImportEdges(p);
    }
  }

  /** Whatever the budgets, the rejections of an expansion differ in rejected imports only. */
  lemma {:induction false} ExamineAllLoose(
      p: Problem, b: Budget, b': Budget, w: State, w': State, d: nat, edges: seq<Edge>)
    requires Covers(p, true, w.blockers, w'.blockers)
    ensures Covers(p, true, ExamineAll(p, b, w, d, edges).blockers, ExamineAll(p, b', w', d, edges).blockers)
    decreases |edges|
  {
    hide ExamineOne, RecordRejects, Rejects, Exhausted, ImportBlocker, ImportEdges;
    if edges != [] {
      var e := edges[0];
      ExamineOneBlockers(p, b, w, d, e);
      ExamineOneBlockers(p, b', w', d, e);
      forall x | x in EdgeSupportRejects(p, e) ensures ImportBlocker(p, x) {
        SupportIsImport(p, e.provenance.binding.value, ImportEdges(p), x);
      }
      ExamineAllLoose(p, b, b', ExamineOne(p, b, w, d, e), ExamineOne(p, b', w', d, e), d, edges[1..]);
    }
  }

  /** Two budgets that set the same depth and queue limits. */
  predicate SameReach(b: Budget, b': Budget) {
    b.maxDepth == b'.maxDepth && b.maxQueueEntries == b'.maxQueueEntries
  }

  /** Two budgets that defer the included edges of a member at depth `d` alike. */
  predicate SameReachAt(b: Budget, b': Budget, d: nat) {
    b.maxQueueEntries == b'.maxQueueEntries && (d + 1 > b.maxDepth <==> d + 1 > b'.maxDepth)
  }

  /** The depth of the next iteration. */
  function NextDepth(w: State): nat
    requires Running(w)
  {
    EntryDepth(w.visited, w.queue[Least(w.queue)].incoming)
  }

  /** The smaller run either still equals the larger or has exhausted a counter that can only grow. */
  ghost predicate Trails(b: Budget, w: State, w': State) {
    w == w' || (Exhausted(b, w) && Subsumed(w.blockers, w'.blockers))
  }

  lemma ExamineOneTrails(p: Problem, b: Budget, b': Budget, w: State, w': State, d: nat, e: Edge)
    requires b.AtMost(b') && SameReachAt(b, b', d) && Trails(b, w, w')
    ensures Trails(b, ExamineOne(p, b, w, d, e), ExamineOne(p, b', w', d, e))
  {
    hide Classify, SupportAll, RecordRejects, EdgeSupportRejects, Rejects;
    ExamineOneBlockers(p, b, w, d, e);
    ExamineOneBlockers(p, b', w', d, e);
    if w == w' {
      var w1 := Record(p, w, d, e);
      if Exhausted(b, w1) && !Exhausted(b', w1) && !Classify(p, e.target, Some(e)).disposition.Reject? {
        assert ExamineOne(p, b, w, d, e) == Defer(w1, Frontier(d + 1, e.target, Some(e)));
      }
    } else {
      ExhaustedStays(p, b, w, d, e);
    }
  }

  lemma ExhaustedStays(p: Problem, b: Budget, w: State, d: nat, e: Edge)
    requires Exhausted(b, w)
    ensures Exhausted(b, Record(p, w, d, e))
    ensures Exhausted(b, ExamineOne(p, b, w, d, e))
    ensures ExamineOne(p, b, w, d, e).blockers == Record(p, w, d, e).blockers
  {
    hide Classify, SupportAll;
    if e.target in w.external { assert w.external + {e.target} == w.external; }
  }

  lemma {:induction false} ExamineAllTrails(
      p: Problem, b: Budget, b': Budget, w: State, w': State, d: nat, edges: seq<Edge>)
    requires b.AtMost(b') && SameReachAt(b, b', d) && Trails(b, w, w')
    ensures Trails(b, ExamineAll(p, b, w, d, edges), ExamineAll(p, b', w', d, edges))
    decreases |edges|
  {
    hide ExamineOne, Trails;
    if edges != [] {
      ExamineOneTrails(p, b, b', w, w', d, edges[0]);
      ExamineAllTrails(p, b, b', ExamineOne(p, b, w, d, edges[0]), ExamineOne(p, b', w', d, edges[0]), d, edges[1..]);
    }
  }

  // ----- Blockers only accumulate -----

  lemma {:induction false} ExamineAllGrows(p: Problem, b: Budget, w: State, d: nat, edges: seq<Edge>)
    ensures Subsumed(w.blockers, ExamineAll(p, b, w, d, edges).blockers)
    decreases |edges|
  {
    hide ExamineOne, RecordRejects, EdgeSupportRejects, Exhausted, Rejects;
    if edges != [] {
      ExamineOneBlockers(p, b, w, d, edges[0]);
      ExamineAllGrows(p, b, ExamineOne(p, b, w, d, edges[0]), d, edges[1..]);
    }
  }

  lemma {:induction false} VisitAllGrows(
      p: Problem, b: Budget, w: State, at: Frontier, owners: seq<NodeId>, todo: seq<NodeId>)
    ensures Subsumed(w.blockers, VisitAll(p, b, w, at, owners, todo).0.blockers)
    decreases |todo|
  {
    hide UnresolvedOf;
    if todo != [] && !w.budgetHit {
      var n := todo[0];
      var w1 := VisitOne(p, b, w, at, n);
      var taken := !w1.budgetHit && (n !in w.visited || w.visited[n] > at.depth);
      VisitAllGrows(p, b, w1, at, if taken then owners + [n] else owners, todo[1..]);
    }
  }

  /** The nested loop of the smaller run is a prefix of the larger one's. */
  lemma {:induction false} VisitAllRejects(
      p: Problem, b: Budget, b': Budget, w: State, at: Frontier, owners: seq<NodeId>, todo: seq<NodeId>)
    requires b.AtMost(b')
    ensures Subsumed(VisitAll(p, b, w, at, owners, todo).0.blockers, VisitAll(p, b', w, at, owners, todo).0.blockers)
    decreases |todo|
  {
    hide UnresolvedOf;
    if todo != [] && !w.budgetHit {
      var n := todo[0];
      var w1, w1' := VisitOne(p, b, w, at, n), VisitOne(p, b', w, at, n);
      var taken := !w1.budgetHit && (n !in w.visited || w.visited[n] > at.depth);
      if w1.budgetHit {
        var taken' := !w1'.budgetHit && (n !in w.visited || w.visited[n] > at.depth);
        VisitAllGrows(p, b', w1', at, if taken' then owners + [n] else owners, todo[1..]);
      } else {
        VisitAllRejects(p, b, b', w1, at, if taken then owners + [n] else owners, todo[1..]);
      }
    }
  }

  lemma ExpandGrows(p: Problem, b: Budget, w: State, at: Frontier)
    ensures Subsumed(w.blockers, Expand(p, b, w, at).blockers)
    ensures Subsumed(VisitAll(p, b, w, at, [at.node], Nested(p, at.node)).0.blockers, Expand(p, b, w, at).blockers)
  {
    hide VisitAll, ExamineAll, Nested, EdgesOf, Sort;
    var (w1, owners) := VisitAll(p, b, w, at, [at.node], Nested(p, at.node));
    VisitAllGrows(p, b, w, at, [at.node], Nested(p, at.node));
    ExamineAllGrows(p, b, w1, at.depth, Sort(EdgeLess, EdgesOf(p, owners)));
  }

  lemma ExpandRejects(p: Problem, loose: bool, b: Budget, b': Budget, w: State, at: Frontier)
    requires b.AtMost(b')
    requires loose || SameReachAt(b, b', at.depth) || !Expand(p, b', w, at).budgetHit
    ensures Covers(p, loose, Expand(p, b, w, at).blockers, Expand(p, b', w, at).blockers)
  {
    hide VisitAll, ExamineAll, Nested, EdgesOf, Sort, ImportBlocker, SameReachAt, Exhausted;
    var (w1, owners) := VisitAll(p, b, w, at, [at.node], Nested(p, at.node));
    if w1.budgetHit {
      VisitAllRejects(p, b, b', w, at, [at.node], Nested(p, at.node));
      ExpandGrows(p, b', w, at);
    } else {
      VisitAllSame(p, b, b', w, at, [at.node], Nested(p, at.node));
      var edges := Sort(EdgeLess, EdgesOf(p, owners));
      if loose {
        ExamineAllLoose(p, b, b', w1, w1, at.depth, edges);
      } else if SameReachAt(b, b', at.depth) {
        ExamineAllTrails(p, b, b', w1, w1, at.depth, edges);
      } else {
        ExamineAllUnhit(p, b, b', w1, w1, at.depth, edges);
      }
    }
  }

  lemma StepGrows(p: Problem, b: Budget, w: State)
    requires Running(w)
    ensures Subsumed(w.blockers, Step(p, b, w).blockers)
  {
    hide Expand, Oversized, Refusal, Least, UnresolvedOf;
    var i := Least(w.queue);
    var e := w.queue[i];
    var at := Frontier(EntryDepth(w.visited, e.incoming), e.node, e.incoming);
    var w1 := w.(queue := RemoveAt(w.queue, i), workUnits := w.workUnits + 1, visited := w.visited[e.node := at.depth]);
    if Refusal(p, at.node).None? { ExpandGrows(p, b, Admit(p, w1, MemberOf(p, at.node)), at); }
  }

  lemma StepRejects(p: Problem, loose: bool, b: Budget, b': Budget, w: State)
    requires b.AtMost(b') && Running(w)
    requires loose || SameReachAt(b, b', NextDepth(w)) || !Step(p, b', w).budgetHit
    ensures Covers(p, loose, Step(p, b, w).blockers, Step(p, b', w).blockers)
  {
    hide Expand, Oversized, Refusal, Least, UnresolvedOf, ImportBlocker, SameReachAt;
    StepGrows(p, b', w);
    var i := Least(w.queue);
    var e := w.queue[i];
    var at := Frontier(EntryDepth(w.visited, e.incoming), e.node, e.incoming);
    var w1 := w.(queue := RemoveAt(w.queue, i), workUnits := w.workUnits + 1, visited := w.visited[e.node := at.depth]);
    if w1.workUnits <= b.maxWorkUnits && !(e.node in w.visited && w.visited[e.node] <= at.depth) &&
        Refusal(p, at.node).None? {
      var m := MemberOf(p, at.node);
      if !Oversized(p, b, w1.members + [m]) {
        if Oversized(p, b', w1.members + [m]) { OversizedShrinks(p, b, b', w1.members + [m]); }
        ExpandRejects(p, loose, b, b', Admit(p, w1, m), at);
      }
    }
  }

  lemma {:induction false} RunGrows(p: Problem, b: Budget, w: State)
    ensures Subsumed(w.blockers, Run(p, b, w).blockers)
    decreases WorkLeft(b, w), MayRun(w)
  {
    hide Step;
    if Running(w) {
      StepSpends(p, b, w);
      StepGrows(p, b, w);
      RunGrows(p, b, Step(p, b, w));
    }
  }

  lemma {:induction false} RunRejects(p: Problem, loose: bool, b: Budget, b': Budget, w: State)
    requires b.AtMost(b')
    requires loose || SameReach(b, b') || !Run(p, b', w).budgetHit
    ensures Covers(p, loose, Run(p, b, w).blockers, Run(p, b', w).blockers)
    decreases WorkLeft(b, w), MayRun(w)
  {
    hide Step, ImportBlocker;
    if Running(w) {
      StepSpends(p, b, w);
      StepSpends(p, b', w);
      var s, s' := Step(p, b, w), Step(p, b', w);
      if s.budgetHit {
        StepRejects(p, loose, b, b', w);
        RunGrows(p, b', s');
      } else {
        StepSame(p, b, b', w);
        RunRejects(p, loose, b, b', s);
      }
    }
  }

  /** Every rejection the walk finds is found under any larger budget too, unless it is that of an import edge. */
  lemma RejectionsPersist(p: Problem, b: Budget, b': Budget, x: Blocker)
    requires b.AtMost(b') && x in Compute(p, b).walk.blockers && !ImportBlocker(p, x)
    ensures x in Compute(p, b').walk.blockers
  {
    hide Run, ImportBlocker;
    if ValidSeed(p) {
      var w := Start(p, b);
      if w.budgetHit {
        RunStopped(p, b, w);
      } else {
        RunRejects(p, true, b, b', w);
      }
    }
  }

  /** How a larger budget can lose a rejection, in full: it raises the depth or
      the queue limit, both walks stop on a budget, every rejection found was
      that of an import edge, and the verdict becomes PARTIAL, never COMPLETE. */
  lemma RejectLostOnlyIf(p: Problem, b: Budget, b': Budget)
    requires b.AtMost(b') && Compute(p, b).status.RejectStatus? && !Compute(p, b').status.RejectStatus?
    ensures !SameReach(b, b')
    ensures Compute(p, b).walk.budgetHit && Compute(p, b').walk.budgetHit
    ensures forall x :: x in Compute(p, b).walk.blockers ==> ImportBlocker(p, x)
    ensures Compute(p, b').status.Partial?
  {
    hide Run, ImportBlocker, SameReach;
    forall x | x in Compute(p, b).walk.blockers ensures ImportBlocker(p, x) {
      if !ImportBlocker(p, x) { RejectionsPersist(p, b, b', x); }
    }
    var w := Start(p, b);
    if w.budgetHit {
      RunStopped(p, b, w);
    } else {
      var r, r' := Run(p, b, w), Run(p, b', w);
      assert r.blockers[0] in r.blockers;
      if SameReach(b, b') || !r'.budgetHit {
        RunRejects(p, false, b, b', w);
      }
      if !r.budgetHit { RunSame(p, b, b', w); }
    }
  }

  predicate Rejecting(p: Problem, b: Budget) { Compute(p, b).status.RejectStatus? }

  /** Raising neither depth nor queue limit keeps every rejection. */
  lemma SameReachKeepsReject(p: Problem, b: Budget, b': Budget)
    requires b.AtMost(b') && SameReach(b, b') && Rejecting(p, b)
    ensures Rejecting(p, b')
  {
    hide Compute, SameReach, ImportBlocker;
    if !Rejecting(p, b') { RejectLostOnlyIf(p, b, b'); }
  }

  /** Where the policy rejects no import, every larger budget keeps every rejection. */
  lemma CleanImportsKeepReject(p: Problem, b: Budget, b': Budget)
    requires b.AtMost(b') && Rejecting(p, b)
    requires forall imp :: imp in ImportEdges(p) ==> !Rejects(p, imp)
    ensures Rejecting(p, b')
  {
    hide Run, SameReach, Rejects, ImportEdges, ValidSeed;
    assert Compute(p, b).walk.blockers[0] in Compute(p, b).walk.blockers;
    if !Rejecting(p, b') { RejectLostOnlyIf(p, b, b'); }
  }
}
