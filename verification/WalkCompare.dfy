/** Walks under different budgets: the complete ones agree, and have a least
    budget; every other gives a shorter list of members than a larger one. */
module WalkCompare {
  import opened Ordering
  import opened GraphModel
  import opened Walk
  import opened WalkCharges
  import opened WalkMonotone

  // ----- The lesser of two budgets -----

  /** The pointwise minimum of two budgets. */
  function Meet(a: Budget, b: Budget): (c: Budget)
    ensures c.AtMost(a) && c.AtMost(b)
    ensures forall d: Budget :: d.AtMost(a) && d.AtMost(b) ==> d.AtMost(c)
  {
    Budget(Min(a.maxFiles, b.maxFiles), Min(a.maxEdges, b.maxEdges), Min(a.maxNodes, b.maxNodes),
           Min(a.maxQueueEntries, b.maxQueueEntries), Min(a.maxDepth, b.maxDepth),
           Min(a.maxWorkUnits, b.maxWorkUnits), Min(a.maxSymbols, b.maxSymbols),
           Min(a.maxSourceLines, b.maxSourceLines), Min(a.maxExternalInterfaces, b.maxExternalInterfaces),
           Min(a.maxConfigEntries, b.maxConfigEntries), Min(a.maxDonorSourceBps, b.maxDonorSourceBps))
  }

  lemma ExamineOneMeets(p: Problem, a: Budget, b: Budget, w: State, d: nat, e: Edge)
    requires !ExamineOne(p, a, w, d, e).budgetHit && !ExamineOne(p, b, w, d, e).budgetHit
    ensures !ExamineOne(p, Meet(a, b), w, d, e).budgetHit
  {
    hide Classify, SupportAll;
    if e.provenance.binding.Some? {
      SupportAllHit(p, Record(p, w, d, e), d + 1, e.provenance.binding.value, ImportEdges(p));
      SupportAllHit(p, Enqueue(Record(p, w, d, e), d, e), d + 1, e.provenance.binding.value, ImportEdges(p));
    }
  }

  lemma {:induction false} ExamineAllMeets(p: Problem, a: Budget, b: Budget, w: State, d: nat, edges: seq<Edge>)
    requires !ExamineAll(p, a, w, d, edges).budgetHit && !ExamineAll(p, b, w, d, edges).budgetHit
    ensures !ExamineAll(p, Meet(a, b), w, d, edges).budgetHit
    decreases |edges|
  {
    hide ExamineOne, Meet;
    if edges != [] {
      var e, rest, c := edges[0], edges[1..], Meet(a, b);
      var wa, wb := ExamineOne(p, a, w, d, e), ExamineOne(p, b, w, d, e);
      if wa.budgetHit { ExamineAllSticky(p, a, wa, d, rest); }
      if wb.budgetHit { ExamineAllSticky(p, b, wb, d, rest); }
      ExamineOneMeets(p, a, b, w, d, e);
      ExamineOneSame(p, c, a, w, d, e);
      ExamineOneSame(p, c, b, w, d, e);
      ExamineAllMeets(p, a, b, wa, d, rest);
    }
  }

  lemma {:induction false} VisitAllMeets(
      p: Problem, a: Budget, b: Budget, w: State, at: Frontier, owners: seq<NodeId>, todo: seq<NodeId>)
    requires !VisitAll(p, a, w, at, owners, todo).0.budgetHit && !VisitAll(p, b, w, at, owners, todo).0.budgetHit
    ensures !VisitAll(p, Meet(a, b), w, at, owners, todo).0.budgetHit
    decreases |todo|
  {
    hide UnresolvedOf;
    if todo != [] && !w.budgetHit {
      var n := todo[0];
      var wa, wb := VisitOne(p, a, w, at, n), VisitOne(p, b, w, at, n);
      if wa.budgetHit { VisitAllStopped(p, a, wa, at, owners, todo[1..]); }
      if wb.budgetHit { VisitAllStopped(p, b, wb, at, owners, todo[1..]); }
      var taken := !wa.budgetHit && (n !in w.visited || w.visited[n] > at.depth);
      VisitAllMeets(p, a, b, wa, at, if taken then owners + [n] else owners, todo[1..]);
    }
  }

  lemma ExpandMeets(p: Problem, a: Budget, b: Budget, w: State, at: Frontier)
    requires !Expand(p, a, w, at).budgetHit && !Expand(p, b, w, at).budgetHit
    ensures !Expand(p, Meet(a, b), w, at).budgetHit
  {
    hide VisitAll, ExamineAll, Nested, EdgesOf, Sort, Meet;
    var c, todo := Meet(a, b), Nested(p, at.node);
    var (w1, owners) := VisitAll(p, c, w, at, [at.node], todo);
    VisitAllMeets(p, a, b, w, at, [at.node], todo);
    VisitAllSame(p, c, a, w, at, [at.node], todo);
    VisitAllSame(p, c, b, w, at, [at.node], todo);
    ExamineAllMeets(p, a, b, w1, at.depth, Sort(EdgeLess, EdgesOf(p, owners)));
  }

  lemma OversizedMeets(p: Problem, a: Budget, b: Budget, members: seq<Member>)
    requires !Oversized(p, a, members) && !Oversized(p, b, members)
    ensures !Oversized(p, Meet(a, b), members)
  {
    hide LinesOf, DonorLines, FilesOf;
  }

  lemma StepMeets(p: Problem, a: Budget, b: Budget, w: State)
    requires Running(w) && !Step(p, a, w).budgetHit && !Step(p, b, w).budgetHit
    ensures !Step(p, Meet(a, b), w).budgetHit
  {
    hide Expand, Oversized, Refusal, Least, UnresolvedOf;
    var i := Least(w.queue);
    var e := w.queue[i];
    var at := Frontier(EntryDepth(w.visited, e.incoming), e.node, e.incoming);
    var w1 := w.(queue := RemoveAt(w.queue, i), workUnits := w.workUnits + 1, visited := w.visited[e.node := at.depth]);
    if Refusal(p, at.node).None? {
      var m := MemberOf(p, at.node);
      if !Oversized(p, a, w1.members + [m]) && !Oversized(p, b, w1.members + [m]) {
        OversizedMeets(p, a, b, w1.members + [m]);
        var w2 := Admit(p, w1, m);
        if !Expand(p, a, w2, at).budgetHit && !Expand(p, b, w2, at).budgetHit { ExpandMeets(p, a, b, w2, at); }
      }
    }
  }

  /** Two walks that hit no budget are the same walk, and so is that under both limits at once. */
  lemma {:induction false} RunMeets(p: Problem, a: Budget, b: Budget, w: State)
    requires !Run(p, a, w).budgetHit && !Run(p, b, w).budgetHit
    ensures Run(p, a, w) == Run(p, b, w) == Run(p, Meet(a, b), w)
    decreases WorkLeft(a, w), MayRun(w)
  {
    hide Step, Meet;
    if Running(w) {
      var c, wa, wb := Meet(a, b), Step(p, a, w), Step(p, b, w);
      StepSpends(p, a, w);
      StepSpends(p, b, w);
      StepSpends(p, c, w);
      if wa.budgetHit { RunStopped(p, a, wa); }
      if wb.budgetHit { RunStopped(p, b, wb); }
      StepMeets(p, a, b, w);
      StepSame(p, c, a, w);
      StepSame(p, c, b, w);
      RunMeets(p, a, b, wa);
    }
  }

  /** Any two budgets that complete, comparable or not, give the same outcome in
      every field, and so does the least of each of their limits: completing is
      closed under pointwise minimum, and the outcome does not depend on the budget. */
  lemma CompleteBudgetsAgree(p: Problem, a: Budget, b: Budget)
    requires Compute(p, a).status.Complete? && Compute(p, b).status.Complete?
    ensures Compute(p, a) == Compute(p, b) == Compute(p, Meet(a, b))
  {
    hide Run;
    var wa, wb := Start(p, a), Start(p, b);
    if wa.budgetHit { RunStopped(p, a, wa); }
    if wb.budgetHit { RunStopped(p, b, wb); }
    RunMeets(p, a, b, wa);
  }

  // ----- Members under a larger budget -----

  lemma ExpandMembers(p: Problem, b: Budget, w: State, at: Frontier)
    ensures Expand(p, b, w, at).members == w.members
  {
    hide VisitAll, ExamineAll, Nested, EdgesOf, Sort;
    var (w1, owners) := VisitAll(p, b, w, at, [at.node], Nested(p, at.node));
    VisitAllFrame(p, b, w, at, [at.node], Nested(p, at.node));
    ExamineAllFrame(p, b, w1, at.depth, Sort(EdgeLess, EdgesOf(p, owners)));
  }

  /** One iteration adds at most one member, and under a larger budget no other. */
  lemma StepMembers(p: Problem, b: Budget, b': Budget, w: State)
    requires b.AtMost(b') && Running(w)
    ensures w.members <= Step(p, b, w).members <= Step(p, b', w).members
  {
    hide Expand, Oversized, Refusal, Least, UnresolvedOf;
    var i := Least(w.queue);
    var e := w.queue[i];
    var at := Frontier(EntryDepth(w.visited, e.incoming), e.node, e.incoming);
    var w1 := w.(queue := RemoveAt(w.queue, i), workUnits := w.workUnits + 1, visited := w.visited[e.node := at.depth]);
    if Refusal(p, at.node).None? {
      var m := MemberOf(p, at.node);
      if Oversized(p, b', w1.members + [m]) { OversizedShrinks(p, b, b', w1.members + [m]); }
      ExpandMembers(p, b, Admit(p, w1, m), at);
      ExpandMembers(p, b', Admit(p, w1, m), at);
    }
  }

  lemma {:induction false} RunMembers(p: Problem, b: Budget, b': Budget, w: State)
    requires b.AtMost(b')
    ensures w.members <= Run(p, b, w).members <= Run(p, b', w).members
    decreases WorkLeft(b', w), MayRun(w)
  {
    hide Step;
    if Running(w) {
      var s, t := Step(p, b, w), Step(p, b', w);
      StepSpends(p, b, w);
      StepSpends(p, b', w);
      StepMembers(p, b, b', w);
      if s.budgetHit {
        RunStopped(p, b, s);
        RunMembers(p, b', b', t);
      } else {
        StepSame(p, b, b', w);
        RunMembers(p, b, b', t);
      }
    }
  }

  /** Under every verdict, the members found are the first of those found under a larger budget. */
  lemma MembersExtend(p: Problem, b: Budget, b': Budget)
    requires b.AtMost(b')
    ensures Compute(p, b).walk.members <= Compute(p, b').walk.members
  {
    hide Run;
    var w := Start(p, b);
    if w.budgetHit {
      RunStopped(p, b, w);
    } else {
      RunMembers(p, b, b', w);
    }
  }
}
