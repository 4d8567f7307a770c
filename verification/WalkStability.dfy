/** When a rejection survives a larger budget, decided by the smaller walk alone.

    Two walks under comparable budgets run in step until the smaller one stops.
    If it stops inside an edge loop and all it rejected there was the support of
    some edge, then the larger one rejects if and only if it still looks at such
    a support: if the charges up to it, counted with the larger one's room in the
    queue, leave it within the work, edge and interface limits. */
module WalkStability {
  import opened Ordering
  import opened GraphModel
  import opened Walk
  import opened WalkInvariant
  import opened WalkCharges
  import opened WalkMonotone

  // ----- Charges along an edge list -----

  /** The counters an edge loop tests, and how many more entries it may queue. */
  datatype Tab = Tab(work: nat, edges: nat, external: set<NodeId>, room: nat)

  /** The counters when an edge is tested. */
  function Tested(p: Problem, t: Tab, e: Edge): Tab {
    t.(work := t.work + 2, edges := t.edges + 1,
       external := if Assumes(p, e.target) then t.external + {e.target} else t.external)
  }

  /** An included edge for which the queue has no room. */
  predicate Crowded(p: Problem, t: Tab, e: Edge) { Includes(p, e.target) && t.room == 0 }

  /** The counters after an edge: two units, and unless there is no room for it
      one for its queue entry and two for each import that supports it. */
  function Charge(p: Problem, t: Tab, e: Edge): Tab {
    var t1 := Tested(p, t, e);
    if Crowded(p, t, e) then t1
    else
      var queued := if Includes(p, e.target) then 1 else 0;
      Tab(t1.work + queued + 2 * |SupportsOf(p, e)|, t1.edges, t1.external + ExternalAmong(p, SupportsOf(p, e)),
          t.room - queued)
  }

  function Charges(p: Problem, t: Tab, edges: seq<Edge>): Tab
    decreases |edges|
  {
    if edges == [] then t else Charges(p, Charge(p, t, edges[0]), edges[1..])
  }

  predicate Over(b: Budget, t: Tab) {
    t.work > b.maxWorkUnits || t.edges > b.maxEdges || |t.external| > b.maxExternalInterfaces
  }

  /** The support of an edge is looked at: the edge is within every limit and has room. */
  predicate Looks(p: Problem, b: Budget, t: Tab, e: Edge) { !Over(b, Tested(p, t, e)) && !Crowded(p, t, e) }

  predicate BadSupport(p: Problem, e: Edge) { exists imp :: imp in SupportsOf(p, e) && Rejects(p, imp) }

  /** Some edge with a rejected support is reached within the limits. */
  predicate Spots(p: Problem, b: Budget, t: Tab, edges: seq<Edge>) {
    exists i :: 0 <= i < |edges| && SpotsAt(p, b, t, edges, i)
  }

  predicate SpotsAt(p: Problem, b: Budget, t: Tab, edges: seq<Edge>, i: nat)
    requires i < |edges|
  {
    BadSupport(p, edges[i]) && Looks(p, b, Charges(p, t, edges[..i]), edges[i])
  }

  lemma SpotsStep(p: Problem, b: Budget, t: Tab, edges: seq<Edge>)
    requires edges != []
    ensures Spots(p, b, t, edges) <==>
            (BadSupport(p, edges[0]) && Looks(p, b, t, edges[0])) || Spots(p, b, Charge(p, t, edges[0]), edges[1..])
  {
    hide BadSupport, Looks, Charge;
    var e, rest, t1 := edges[0], edges[1..], Charge(p, t, edges[0]);
    assert SpotsAt(p, b, t, edges, 0) <==> BadSupport(p, e) && Looks(p, b, t, e);
    forall i | 0 <= i < |rest| ensures SpotsAt(p, b, t1, rest, i) <==> SpotsAt(p, b, t, edges, i + 1) {
      assert edges[..i + 1][1..] == rest[..i] && edges[..i + 1][0] == e;
    }
    if Spots(p, b, t, edges) {
      var i :| 0 <= i < |edges| && SpotsAt(p, b, t, edges, i);
      if i > 0 { assert SpotsAt(p, b, t1, rest, i - 1); }
    }
    if Spots(p, b, t1, rest) {
      var i :| 0 <= i < |rest| && SpotsAt(p, b, t1, rest, i);
      assert SpotsAt(p, b, t, edges, i + 1);
    }
  }

  lemma SpotsNothing(p: Problem, b: Budget, t: Tab)
    ensures !Spots(p, b, t, [])
  {
  }

  lemma ChargeOver(p: Problem, b: Budget, t: Tab, e: Edge)
    requires Over(b, Tested(p, t, e))
    ensures Over(b, Charge(p, t, e))
  {
    hide Classify, SupportsOf, ExternalAmong;
    SubsetSize(Tested(p, t, e).external, Charge(p, t, e).external);
  }

  lemma TestedOver(p: Problem, b: Budget, t: Tab, e: Edge)
    requires Over(b, t)
    ensures Over(b, Tested(p, t, e))
  {
    hide Classify;
    SubsetSize(t.external, Tested(p, t, e).external);
  }

  /** Once over a limit, nothing more is looked at. */
  lemma {:induction false} OverSpotsNothing(p: Problem, b: Budget, t: Tab, edges: seq<Edge>)
    requires Over(b, t)
    ensures !Spots(p, b, t, edges)
    decreases |edges|
  {
    hide Over, Spots, Charge, Tested, BadSupport;
    if edges == [] {
      SpotsNothing(p, b, t);
    } else {
      TestedOver(p, b, t, edges[0]);
      ChargeOver(p, b, t, edges[0]);
      OverSpotsNothing(p, b, Charge(p, t, edges[0]), edges[1..]);
      SpotsStep(p, b, t, edges);
    }
  }

  /** Higher limits look at no less. */
  lemma SpotsGrows(p: Problem, b: Budget, b': Budget, t: Tab, edges: seq<Edge>)
    requires b.maxWorkUnits <= b'.maxWorkUnits && b.maxEdges <= b'.maxEdges &&
             b.maxExternalInterfaces <= b'.maxExternalInterfaces
    requires Spots(p, b, t, edges)
    ensures Spots(p, b', t, edges)
  {
    hide BadSupport, Charges, Tested, Crowded;
    var i :| 0 <= i < |edges| && SpotsAt(p, b, t, edges, i);
    assert SpotsAt(p, b', t, edges, i);
  }

  /** Room for every edge is room enough. */
  lemma {:induction false} RoomEnough(p: Problem, b: Budget, t: Tab, room: nat, edges: seq<Edge>)
    requires t.room >= |edges| && room >= |edges|
    ensures Spots(p, b, t, edges) <==> Spots(p, b, t.(room := room), edges)
    decreases |edges|
  {
    hide Spots, Classify, SupportsOf, ExternalAmong, BadSupport, Includes;
    if edges == [] {
      SpotsNothing(p, b, t);
      SpotsNothing(p, b, t.(room := room));
    } else {
      var e, t' := edges[0], t.(room := room);
      SpotsStep(p, b, t, edges);
      SpotsStep(p, b, t', edges);
      var queued := if Includes(p, e.target) then 1 else 0;
      assert Charge(p, t', e) == Charge(p, t, e).(room := room - queued);
      RoomEnough(p, b, Charge(p, t, e), room - queued, edges[1..]);
    }
  }

  // ----- The edge loop keeps this account -----

  /** How many more entries an edge loop at depth `d` may queue. */
  function Free(b: Budget, d: nat, queued: nat): nat { if d + 1 > b.maxDepth then 0 else QueueRoom(b, queued) }

  function QueueRoom(
      b: Budget, queued: nat): nat { if queued >= b.maxQueueEntries then 0 else b.maxQueueEntries - queued }

  function TabOf(
      b: Budget, d: nat, w: State): Tab { Tab(w.workUnits, w.edgesExamined, w.external, Free(b, d, |w.queue|)) }

  lemma {:induction false} SupportRejectsBad(p: Problem, binding: SourceRef, imports: seq<Edge>)
    ensures SupportRejects(p, binding, imports) != [] <==>
            exists imp :: imp in SupportsAmong(imports, binding) && Rejects(p, imp)
    decreases |imports|
  {
    hide Rejects, Classify;
    if imports != [] {
      var first, rest := imports[0], SupportsAmong(imports[1..], binding);
      SupportRejectsBad(p, binding, imports[1..]);
      if Supports(first, binding) { assert SupportsAmong(imports, binding) == [first] + rest; }
    }
  }

  lemma EdgeRejectsBad(p: Problem, e: Edge)
    ensures EdgeSupportRejects(p, e) != [] <==> BadSupport(p, e)
  {
    hide Rejects, SupportRejects, SupportsAmong;
    if e.provenance.binding.Some? { SupportRejectsBad(p, e.provenance.binding.value, ImportEdges(p)); }
  }

  lemma TestedIs(p: Problem, b: Budget, w: State, d: nat, e: Edge)
    ensures var w1 := Record(p, w, d, e);
            TabOf(b, d, w1) == Tested(p, TabOf(b, d, w), e) && (Exhausted(b, w1) <==> Over(b, TabOf(b, d, w1)))
  {
    hide Classify;
  }

  /** An edge that is not rejected and within every limit: charged as accounted, and blocked
      exactly by a rejected support looked at. */
  lemma ExamineOneAccounts(p: Problem, b: Budget, w: State, d: nat, e: Edge)
    requires e.kind.Runtime() && !Rejects(p, e) && !Exhausted(b, Record(p, w, d, e))
    ensures var t, w' := TabOf(b, d, w), ExamineOne(p, b, w, d, e);
            && TabOf(b, d, w') == Charge(p, t, e)
            && (w'.blockers != [] <==> w.blockers != [] || (BadSupport(p, e) && Looks(p, b, t, e)))
  {
    hide Classify, SupportAll, BadSupport, EdgeSupportRejects, SupportsOf, ExternalAmong, Exhausted;
    var t, w' := TabOf(b, d, w), ExamineOne(p, b, w, d, e);
    var w1 := Record(p, w, d, e);
    TestedIs(p, b, w, d, e);
    EdgeRejectsBad(p, e);
    ExamineOneLooked(p, b, w, d, e);
    if Crowded(p, t, e) {
      assert w' == Defer(w1, Frontier(d + 1, e.target, Some(e)));
    } else {
      ExamineOneCharges(p, b, w, d, e);
    }
  }

  /** What the support of an edge adds to the blockers. */
  lemma ExamineOneLooked(p: Problem, b: Budget, w: State, d: nat, e: Edge)
    requires !Rejects(p, e) && !Exhausted(b, Record(p, w, d, e))
    ensures ExamineOne(p, b, w, d, e).blockers ==
            if Includes(p, e.target) &&
                Free(b, d, |w.queue|) == 0 then w.blockers else w.blockers + EdgeSupportRejects(p, e)
  {
    hide Classify, SupportAll, SupportRejects, Exhausted;
    if e.provenance.binding.Some? {
      SupportAllBlockers(p, Record(p, w, d, e), d + 1, e.provenance.binding.value, ImportEdges(p));
      SupportAllBlockers(p, Enqueue(Record(p, w, d, e), d, e), d + 1, e.provenance.binding.value, ImportEdges(p));
    }
  }

  /** Once exhausted, an edge loop without rejected edges blocks on nothing more. */
  lemma {:induction false} ExhaustedFinds(p: Problem, b: Budget, w: State, d: nat, edges: seq<Edge>)
    requires Exhausted(b, w) && forall e :: e in edges ==> !Rejects(p, e)
    ensures ExamineAll(p, b, w, d, edges).blockers == w.blockers
    decreases |edges|
  {
    hide ExamineOne, Exhausted;
    if edges != [] {
      ExhaustedStays(p, b, w, d, edges[0]);
      assert !Rejects(p, edges[0]) && Record(p, w, d, edges[0]).blockers == w.blockers;
      ExhaustedFinds(p, b, ExamineOne(p, b, w, d, edges[0]), d, edges[1..]);
    }
  }

  /** An edge loop without rejected edges ends blocked exactly when it began so, or spots a rejected support. */
  lemma {:induction false} ExamineAllSpots(p: Problem, b: Budget, w: State, d: nat, edges: seq<Edge>)
    requires forall e :: e in edges ==> e.kind.Runtime() && !Rejects(p, e)
    ensures ExamineAll(p, b, w, d, edges).blockers != [] <==> w.blockers != [] || Spots(p, b, TabOf(b, d, w), edges)
    decreases |edges|
  {
    hide ExamineOne, Exhausted, Record, Spots, BadSupport, Charge, Rejects, Tested, Over;
    var t := TabOf(b, d, w);
    if edges == [] {
      SpotsNothing(p, b, t);
    } else {
      var e := edges[0];
      var w1, w' := Record(p, w, d, e), ExamineOne(p, b, w, d, e);
      SpotsStep(p, b, t, edges);
      TestedIs(p, b, w, d, e);
      if Exhausted(b, w1) {
        ExamineOneExhausted(p, b, w, d, e);
        ExhaustedFinds(p, b, w', d, edges[1..]);
        ChargeOver(p, b, t, e);
        OverSpotsNothing(p, b, Charge(p, t, e), edges[1..]);
      } else {
        ExamineOneAccounts(p, b, w, d, e);
        ExamineAllSpots(p, b, w', d, edges[1..]);
      }
    }
  }

  lemma ExamineOneExhausted(p: Problem, b: Budget, w: State, d: nat, e: Edge)
    requires !Rejects(p, e) && Exhausted(b, Record(p, w, d, e))
    ensures Exhausted(b, ExamineOne(p, b, w, d, e)) && ExamineOne(p, b, w, d, e).blockers == w.blockers
  {
    hide Classify, SupportAll;
  }

  // ----- Where the smaller walk stops -----

  /** The state in which the iteration begins that hits the budget, or the final one. */
  function Stop(p: Problem, b: Budget, w: State): State
    decreases WorkLeft(b, w), MayRun(w)
  {
    if !Running(w) || Step(p, b, w).budgetHit then w
    else
      StepSpends(p, b, w);
      Stop(p, b, Step(p, b, w))
  }

  /** Up to there the larger walk is the same. */
  lemma {:induction false} StopShared(p: Problem, b: Budget, b': Budget, w: State)
    requires b.AtMost(b')
    ensures Run(p, b', w) == Run(p, b', Stop(p, b, w))
    ensures Running(Stop(p, b, w)) ==> Step(p, b, Stop(p, b, w)).budgetHit
    decreases WorkLeft(b, w), MayRun(w)
  {
    hide Step;
    if Running(w) && !Step(p, b, w).budgetHit {
      StepSpends(p, b, w);
      StepSpends(p, b', w);
      StepSame(p, b, b', w);
      StopShared(p, b, b', Step(p, b, w));
    }
  }

  /** The edge loop of an iteration: the state on entry, the member's depth, and the edges. */
  datatype EdgeLoop = EdgeLoop(entry: State, depth: nat, edges: seq<Edge>)

  /** The edge loop of the next iteration, if it gets that far. */
  function LoopOf(p: Problem, b: Budget, w: State): Option<EdgeLoop>
    requires Running(w)
  {
    var i := Least(w.queue);
    var e := w.queue[i];
    var at := Frontier(EntryDepth(w.visited, e.incoming), e.node, e.incoming);
    var w1 := w.(queue := RemoveAt(w.queue, i), workUnits := w.workUnits + 1);
    if w1.workUnits > b.maxWorkUnits || (e.node in w.visited && w.visited[e.node] <= at.depth) ||
        Refusal(p, at.node).Some? then None
    else
      var w2, m := w1.(visited := w1.visited[e.node := at.depth]), MemberOf(p, at.node);
      if Oversized(p, b, w2.members + [m]) then None
      else
        var (w3, owners) := VisitAll(p, b, Admit(p, w2, m), at, [at.node], Nested(p, at.node));
        if w3.budgetHit then None else Some(EdgeLoop(w3, at.depth, Sort(EdgeLess, EdgesOf(p, owners))))
  }

  lemma LoopIsStep(p: Problem, b: Budget, w: State)
    requires Running(w) && LoopOf(p, b, w).Some?
    ensures var l := LoopOf(p, b, w).value; Step(p, b, w) == ExamineAll(p, b, l.entry, l.depth, l.edges)
  {
    hide VisitAll, ExamineAll, Nested, EdgesOf, Sort, Oversized, Refusal, Least, UnresolvedOf;
  }

  lemma LoopIsRuntime(p: Problem, b: Budget, w: State, e: Edge)
    requires Running(w) && LoopOf(p, b, w).Some? && e in LoopOf(p, b, w).value.edges
    ensures e.kind.Runtime()
  {
    hide VisitAll, Nested, EdgesOf, Oversized, Refusal, Least, UnresolvedOf, Sort;
    var i := Least(w.queue);
    var q := w.queue[i];
    var at := Frontier(EntryDepth(w.visited, q.incoming), q.node, q.incoming);
    var w2 := w.(queue := RemoveAt(w.queue, i), workUnits := w.workUnits + 1, visited := w.visited[q.node := at.depth]);
    var owners := VisitAll(p, b, Admit(p, w2, MemberOf(p, at.node)), at, [at.node], Nested(p, at.node)).1;
    SameMembers(Sort(EdgeLess, EdgesOf(p, owners)), EdgesOf(p, owners));
    EdgesOfRuntime(p, owners, e);
  }

  /** The larger walk enters the same loop. */
  lemma LoopShared(p: Problem, b: Budget, b': Budget, w: State)
    requires Running(w) && b.AtMost(b') && LoopOf(p, b, w).Some?
    ensures LoopOf(p, b', w) == LoopOf(p, b, w)
  {
    hide VisitAll, Nested, EdgesOf, Sort, Oversized, Refusal, Least, UnresolvedOf;
    var i := Least(w.queue);
    var e := w.queue[i];
    var at := Frontier(EntryDepth(w.visited, e.incoming), e.node, e.incoming);
    var w2 := w.(queue := RemoveAt(w.queue, i), workUnits := w.workUnits + 1, visited := w.visited[e.node := at.depth]);
    var m := MemberOf(p, at.node);
    if Oversized(p, b', w2.members + [m]) { OversizedShrinks(p, b, b', w2.members + [m]); }
    VisitAllSame(p, b, b', Admit(p, w2, m), at, [at.node], Nested(p, at.node));
  }

  /** A walk stopped before any edge loop has found nothing that the larger one does not. */
  lemma StopElsewhere(p: Problem, b: Budget, b': Budget, w: State)
    requires Running(w) && b.AtMost(b') && LoopOf(p, b, w).None? && Step(p, b, w).budgetHit
    ensures Subsumed(Step(p, b, w).blockers, Step(p, b', w).blockers)
  {
    hide VisitAll, ExamineAll, Nested, EdgesOf, Sort, Oversized, Refusal, Least, UnresolvedOf;
    StepGrows(p, b', w);
    var i := Least(w.queue);
    var e := w.queue[i];
    var at := Frontier(EntryDepth(w.visited, e.incoming), e.node, e.incoming);
    var w2 := w.(queue := RemoveAt(w.queue, i), workUnits := w.workUnits + 1, visited := w.visited[e.node := at.depth]);
    if w2.workUnits <= b.maxWorkUnits && Refusal(p, at.node).None? {
      var m := MemberOf(p, at.node);
      if !Oversized(p, b, w2.members + [m]) {
        if Oversized(p, b', w2.members + [m]) { OversizedShrinks(p, b, b', w2.members + [m]); }
        VisitAllRejects(p, b, b', Admit(p, w2, m), at, [at.node], Nested(p, at.node));
        ExpandGrows(p, b', Admit(p, w2, m), at);
      }
    }
  }

  /** A rejected edge is found whatever the budget. */
  lemma {:induction false} RejectedEdgeFound(p: Problem, b: Budget, w: State, d: nat, edges: seq<Edge>, e: Edge)
    requires e in edges && Rejects(p, e)
    ensures ExamineAll(p, b, w, d, edges).blockers != []
    decreases |edges|
  {
    hide ExamineOne, Rejects, Exhausted, EdgeSupportRejects;
    var w1 := ExamineOne(p, b, w, d, edges[0]);
    if e == edges[0] {
      ExamineOneBlockers(p, b, w, d, e);
      ExamineAllGrows(p, b, w1, d, edges[1..]);
      assert w1.blockers[0] in ExamineAll(p, b, w1, d, edges[1..]).blockers;
    } else {
      RejectedEdgeFound(p, b, w1, d, edges[1..], e);
    }
  }

  // ----- The exact conditions -----

  /** The edge loop that decides: the smaller walk stopped in it, unblocked when
      it entered, and no edge of it is rejected outright. */
  function Deciding(p: Problem, b: Budget): Option<EdgeLoop> {
    var w := Stop(p, b, Start(p, b));
    if !ValidSeed(p) || !Running(w) || LoopOf(p, b, w).None? then None
    else
      var l := LoopOf(p, b, w).value;
      if l.entry.blockers != [] || exists k :: 0 <= k < |l.edges| && Rejects(p, l.edges[k]) then None else Some(l)
  }

  /** Under the limits of `b'` a rejected support is looked at in the deciding loop, if there is one. */
  predicate Survives(p: Problem, b: Budget, b': Budget) {
    var l := Deciding(p, b);
    l.None? || Spots(p, b', TabOf(b', l.value.depth, l.value.entry), l.value.edges)
  }

  /** The iteration on which the smaller walk stops, under the larger budget. */
  lemma StopSurvives(p: Problem, b: Budget, b': Budget, w: State)
    requires b.AtMost(b') && Running(w) && Step(p, b, w).budgetHit && Step(p, b, w).blockers != []
    ensures var l := LoopOf(p, b, w);
            Run(p, b', w).blockers != [] <==>
            || l.None? || l.value.entry.blockers != [] ||
               (exists k :: 0 <= k < |l.value.edges| && Rejects(p, l.value.edges[k]))
            || Spots(p, b', TabOf(b', l.value.depth, l.value.entry), l.value.edges)
  {
    hide Step, LoopOf, ExamineAll, Rejects, Spots, TabOf;
    var s, t := Step(p, b, w), Step(p, b', w);
    StepSpends(p, b', w);
    RunGrows(p, b', t);
    if t.blockers != [] { assert t.blockers[0] in Run(p, b', t).blockers; }
    if LoopOf(p, b, w).None? {
      StopElsewhere(p, b, b', w);
      assert s.blockers[0] in t.blockers;
    } else {
      var l := LoopOf(p, b, w).value;
      LoopIsStep(p, b, w);
      LoopShared(p, b, b', w);
      LoopIsStep(p, b', w);
      LoopBlocks(p, b, b', w, l);
      if t.budgetHit { RunStopped(p, b', t); }
    }
  }

  lemma LoopBlocks(p: Problem, b: Budget, b': Budget, w: State, l: EdgeLoop)
    requires b.AtMost(b') && Running(w) && LoopOf(p, b, w) == Some(l) &&
             ExamineAll(p, b, l.entry, l.depth, l.edges).blockers != []
    ensures var t := ExamineAll(p, b', l.entry, l.depth, l.edges);
            && (t.blockers != [] <==>
                || l.entry.blockers != [] || (exists k :: 0 <= k < |l.edges| && Rejects(p, l.edges[k]))
                || Spots(p, b', TabOf(b', l.depth, l.entry), l.edges))
            && (t.blockers == [] ==> t.budgetHit)
  {
    hide LoopOf, ExamineAll, Rejects, Spots, TabOf;
    var s, t := ExamineAll(p, b, l.entry, l.depth, l.edges), ExamineAll(p, b', l.entry, l.depth, l.edges);
    if !t.budgetHit {
      ExamineAllUnhit(p, b, b', l.entry, l.entry, l.depth, l.edges);
      assert s.blockers[0] in t.blockers;
    }
    if exists k :: 0 <= k < |l.edges| && Rejects(p, l.edges[k]) {
      var k :| 0 <= k < |l.edges| && Rejects(p, l.edges[k]);
      RejectedEdgeFound(p, b', l.entry, l.depth, l.edges, l.edges[k]);
    } else {
      forall e | e in l.edges ensures e.kind.Runtime() && !Rejects(p, e) { LoopIsRuntime(p, b, w, e); }
      ExamineAllSpots(p, b', l.entry, l.depth, l.edges);
    }
  }

  /** A rejection survives a larger budget if and only if that budget still looks
      at a rejected support in the loop where the smaller walk stopped. */
  lemma RejectSurvives(p: Problem, b: Budget, b': Budget)
    requires b.AtMost(b') && Rejecting(p, b)
    ensures Rejecting(p, b') <==> Survives(p, b, b')
  {
    hide Run, Stop, LoopOf, Spots, Rejects, TabOf;
    if ValidSeed(p) {
      var w0 := Start(p, b);
      if w0.budgetHit { RunStopped(p, b, w0); }
      assert Start(p, b') == w0;
      var w := Stop(p, b, w0);
      StopShared(p, b, b, w0);
      StopShared(p, b, b', w0);
      if Running(w) {
        StepSpends(p, b, w);
        assert Run(p, b, w) == Step(p, b, w) by { RunOneStep(p, b, w); }
        StopSurvives(p, b, b', w);
      } else {
        RunStopped(p, b, w);
        RunStopped(p, b', w);
      }
    }
  }

  lemma RunOneStep(p: Problem, b: Budget, w: State)
    requires Running(w) && Step(p, b, w).budgetHit
    ensures Run(p, b, w) == Step(p, b, w)
  {
    hide Step;
    StepSpends(p, b, w);
    RunStopped(p, b, Step(p, b, w));
  }

  /** Whatever room the queue is given, from what it had to one entry an edge, a rejected
      support is looked at within the limits of `b`. */
  predicate Stable(p: Problem, b: Budget) {
    var l := Deciding(p, b);
    l.None? ||
    var w, least := l.value.entry, QueueRoom(b, |l.value.entry.queue|);
    forall room :: least <= room <= Max(least, |l.value.edges|) ==>
      Spots(p, b, Tab(w.workUnits, w.edgesExamined, w.external, room), l.value.edges)
  }

  /** A rejection survives every larger budget if and only if it is stable: a
      finite condition on the loop where the walk stopped, and on no other run. */
  lemma RejectStability(p: Problem, b: Budget)
    requires Rejecting(p, b)
    ensures (forall b' :: b.AtMost(b') ==> Rejecting(p, b')) <==> Stable(p, b)
  {
    hide Rejecting, Deciding, Spots;
    if Stable(p, b) {
      forall b' | b.AtMost(b') ensures Rejecting(p, b') { StableSurvives(p, b, b'); }
    }
    if forall b' :: b.AtMost(b') ==> Rejecting(p, b') {
      var l := Deciding(p, b);
      if l.Some? {
        var w, least := l.value.entry, QueueRoom(b, |l.value.entry.queue|);
        forall room | least <= room <= Max(least, |l.value.edges|)
          ensures Spots(p, b, Tab(w.workUnits, w.edgesExamined, w.external, room), l.value.edges)
        {
          RoomIsReachable(p, b, l.value, room);
        }
      }
    }
  }

  /** Every room above what `b` has is that of some budget that only raises depth and queue. */
  lemma RoomIsReachable(p: Problem, b: Budget, l: EdgeLoop, room: nat)
    requires Rejecting(p, b) && Deciding(p, b) == Some(l) && room >= QueueRoom(b, |l.entry.queue|)
    requires forall b' :: b.AtMost(b') ==> Rejecting(p, b')
    ensures Spots(p, b, Tab(l.entry.workUnits, l.entry.edgesExamined, l.entry.external, room), l.edges)
  {
    hide Rejecting, Deciding, Spots;
    var n := |l.entry.queue|;
    var c := b.(maxDepth := Max(b.maxDepth, l.depth + 1), maxQueueEntries := Max(b.maxQueueEntries, n + room));
    assert b.AtMost(c) && Free(c, l.depth, n) == room;
    RejectSurvives(p, b, c);
    SpotsGrows(p, c, b, TabOf(c, l.depth, l.entry), l.edges);
  }

  lemma StableSurvives(p: Problem, b: Budget, b': Budget)
    requires Rejecting(p, b) && Stable(p, b) && b.AtMost(b')
    ensures Rejecting(p, b')
  {
    hide Rejecting, Deciding, Spots;
    RejectSurvives(p, b, b);
    RejectSurvives(p, b, b');
    var l := Deciding(p, b);
    if l.Some? {
      var w, edges, n := l.value.entry, l.value.edges, |l.value.entry.queue|;
      var t, least := TabOf(b', l.value.depth, w), QueueRoom(b, n);
      if l.value.depth + 1 > b'.maxDepth {
        assert t == TabOf(b, l.value.depth, w);
      } else {
        var room := Max(least, |edges|);
        if t.room > room {
          assert Spots(p, b, t.(room := room), edges);
          RoomEnough(p, b, t, room, edges);
        }
      }
      assert Spots(p, b, t, edges);
      SpotsGrows(p, b, b', t, edges);
    }
  }

  /** With the queue limit left alone the room is settled, and one evaluation decides. */
  lemma DeeperStability(p: Problem, b: Budget)
    requires Rejecting(p, b)
    ensures (forall b' :: b.AtMost(b') && b'.maxQueueEntries == b.maxQueueEntries ==> Rejecting(p, b')) <==>
            var l := Deciding(p, b);
            l.None? || var w := l.value.entry;
            Spots(p, b, Tab(w.workUnits, w.edgesExamined, w.external, QueueRoom(b, |w.queue|)), l.value.edges)
  {
    hide Rejecting, Deciding, Spots;
    var l := Deciding(p, b);
    if l.Some? {
      var w := l.value.entry;
      var t := Tab(w.workUnits, w.edgesExamined, w.external, QueueRoom(b, |w.queue|));
      var c := b.(maxDepth := Max(b.maxDepth, l.value.depth + 1));
      assert b.AtMost(c) && TabOf(c, l.value.depth, w) == t;
      RejectSurvives(p, b, b);
      RejectSurvives(p, b, c);
      if Spots(p, c, t, l.value.edges) { SpotsGrows(p, c, b, t, l.value.edges); }
      if Spots(p, b, t, l.value.edges) {
        forall b' | b.AtMost(b') && b'.maxQueueEntries == b.maxQueueEntries ensures Rejecting(p, b') {
          RejectSurvives(p, b, b');
          var t' := TabOf(b', l.value.depth, w);
          assert t' == t || t' == TabOf(b, l.value.depth, w);
          SpotsGrows(p, b, b', t', l.value.edges);
        }
      }
    } else {
      forall b' | b.AtMost(b') ensures Rejecting(p, b') { RejectSurvives(p, b, b'); }
    }
  }
}
