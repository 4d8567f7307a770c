/** What examining an edge charges, to the unit: itself, its queue entry, and the
    imports that support it. */
module WalkCharges {
  import opened Ordering
  import opened GraphModel
  import opened Walk
  import opened WalkInvariant

  function SupportsAmong(imports: seq<Edge>, binding: SourceRef): (r: seq<Edge>)
    ensures |r| <= |imports|
  {
    if imports == [] then []
    else (if Supports(imports[0], binding) then [imports[0]] else []) + SupportsAmong(imports[1..], binding)
  }

  /** The imports that prove the binding of an edge, in graph order. */
  function SupportsOf(p: Problem, e: Edge): (r: seq<Edge>)
    ensures |r| <= |ImportEdges(p)|
  {
    if e.provenance.binding.None? then [] else SupportsAmong(ImportEdges(p), e.provenance.binding.value)
  }

  function ExternalAmong(p: Problem, imports: seq<Edge>): set<NodeId> {
    set imp | imp in imports && Assumes(p, imp.target) :: imp.target
  }

  lemma {:induction false} SupportsMembers(imports: seq<Edge>, binding: SourceRef, imp: Edge)
    ensures imp in SupportsAmong(imports, binding) <==> imp in imports && Supports(imp, binding)
  {
    if imports != [] { SupportsMembers(imports[1..], binding, imp); }
  }

  lemma {:induction false} ExternalSize(p: Problem, imports: seq<Edge>)
    ensures |ExternalAmong(p, imports)| <= |imports|
  {
    hide Classify;
    if imports != [] {
      ExternalSize(p, imports[1..]);
      ExternalFirst(p, imports);
    } else {
      assert ExternalAmong(p, imports) == {};
    }
  }

  lemma ExternalFirst(p: Problem, imports: seq<Edge>)
    requires imports != []
    ensures var first := imports[0];
            ExternalAmong(p, imports) ==
            (if Assumes(p, first.target) then {first.target} else {}) +
                ExternalAmong(p, imports[1..])
  {
    hide Classify;
    var first := imports[0];
    assert imports == [first] + imports[1..];
    forall n | n in ExternalAmong(p, imports[1..]) ensures n in ExternalAmong(p, imports) {
      var imp :| imp in imports[1..] && Assumes(p, imp.target) && imp.target == n;
      assert imp in imports;
    }
  }

  /** Looking at the support of an edge costs two units an import, and adds the external ones among them. */
  lemma {:induction false} SupportAllCharges(p: Problem, w: State, depth: nat, binding: SourceRef, imports: seq<Edge>)
    ensures var w', supports := SupportAll(p, w, depth, binding, imports), SupportsAmong(imports, binding);
            && w'.workUnits == w.workUnits + 2 * |supports|
            && w'.external == w.external + ExternalAmong(p, supports)
            && |w.blockers| <= |w'.blockers|
            && w' == w.(workUnits := w'.workUnits, dispositions := w'.dispositions, traversed := w'.traversed,
                        blockers := w'.blockers, external := w'.external)
    decreases |imports|
  {
    hide Classify;
    if imports == [] {
      assert ExternalAmong(p, []) == {};
    } else {
      var imp, rest := imports[0], SupportsAmong(imports[1..], binding);
      var w1 := if Supports(imp, binding) then SupportOne(p, w, depth, imp) else w;
      SupportAllCharges(p, w1, depth, binding, imports[1..]);
      if Supports(imp, binding) {
        var all := SupportsAmong(imports, binding);
        assert all == [imp] + rest && all[1..] == rest;
        ExternalFirst(p, all);
      }
    }
  }

  /** The last runtime edge examined. */
  function LastExamined(traversed: seq<EdgeEvidence>): Option<Edge> {
    if traversed == [] then None
    else
      var last := traversed[|traversed| - 1];
      if last.edge.kind.Runtime() then Some(last.edge) else LastExamined(traversed[..|traversed| - 1])
  }

  lemma {:induction false} LastIsExamined(traversed: seq<EdgeEvidence>)
    ensures LastExamined(traversed).Some? ==> LastExamined(traversed).value in Examined(traversed)
  {
    if traversed != [] {
      LastIsExamined(traversed[..|traversed| - 1]);
      assert traversed == traversed[..|traversed| - 1] + [traversed[|traversed| - 1]];
    }
  }

  lemma SupportOneLast(p: Problem, w: State, depth: nat, imp: Edge)
    requires imp.kind.Imports?
    ensures LastExamined(SupportOne(p, w, depth, imp).traversed) == LastExamined(w.traversed)
  {
    hide Classify;
    var w1 := SupportOne(p, w, depth, imp);
    assert w1.traversed[..|w1.traversed| - 1] == w.traversed;
  }

  lemma {:induction false} SupportAllLast(p: Problem, w: State, depth: nat, binding: SourceRef, imports: seq<Edge>)
    requires forall imp :: imp in imports ==> imp.kind.Imports?
    ensures LastExamined(SupportAll(p, w, depth, binding, imports).traversed) == LastExamined(w.traversed)
    decreases |imports|
  {
    hide SupportOne, LastExamined, Supports;
    if imports != [] {
      var w1 := if Supports(imports[0], binding) then SupportOne(p, w, depth, imports[0]) else w;
      SupportOneLast(p, w, depth, imports[0]);
      SupportAllLast(p, w1, depth, binding, imports[1..]);
    }
  }

  /** One examined edge that is neither rejected nor deferred: its charges, and that it is now the last. */
  lemma ExamineOneCharges(p: Problem, b: Budget, w: State, d: nat, e: Edge)
    requires e.kind.Runtime() && !Rejects(p, e) && !Exhausted(b, Record(p, w, d, e))
    requires Includes(p, e.target) ==> d + 1 <= b.maxDepth && |w.queue| + 1 <= b.maxQueueEntries
    ensures var w1, w' := Record(p, w, d, e), ExamineOne(p, b, w, d, e);
            && w'.workUnits == w1.workUnits + (if Includes(p, e.target) then 1 else 0) + 2 * |SupportsOf(p, e)|
            && w'.external == w1.external + ExternalAmong(p, SupportsOf(p, e))
            && w'.edgesExamined == w1.edgesExamined && w'.budgetHit == w.budgetHit
            && |w'.queue| == |w.queue| + (if Includes(p, e.target) then 1 else 0)
            && LastExamined(w'.traversed) == Some(e) && |w.blockers| <= |w'.blockers|
  {
    hide Classify, SupportAll, Exhausted;
    var w1 := Record(p, w, d, e);
    assert w1.traversed[..|w1.traversed| - 1] == w.traversed;
    assert ExternalAmong(p, []) == {};
    if e.provenance.binding.Some? {
      var binding, w2 := e.provenance.binding.value, if Includes(p, e.target) then Enqueue(w1, d, e) else w1;
      forall imp | imp in ImportEdges(p) ensures imp.kind.Imports? { ImportsAmongMembers(p.graph.edges, imp); }
      SupportAllCharges(p, w2, d + 1, binding, ImportEdges(p));
      SupportAllLast(p, w2, d + 1, binding, ImportEdges(p));
    }
  }

  lemma {:induction false} EdgesOfRuntime(p: Problem, owners: seq<NodeId>, e: Edge)
    requires e in EdgesOf(p, owners)
    ensures e.kind.Runtime()
  {
    hide Outgoing;
    var n := owners[|owners| - 1];
    if e in Outgoing(p, n) { OutgoingIsRuntime(p, n, e); } else { EdgesOfRuntime(p, owners[..|owners| - 1], e); }
  }

  lemma OutgoingIsRuntime(p: Problem, n: NodeId, e: Edge)
    requires e in Outgoing(p, n)
    ensures e.kind.Runtime()
  {
    OutgoingAmongMembers(p.graph.edges, n, e);
  }

  // ----- What the nested loop and the edge loop leave alone -----

  lemma {:induction false} VisitAllFrame(
      p: Problem, b: Budget, w: State, at: Frontier, owners: seq<NodeId>, todo: seq<NodeId>)
    ensures var w' := VisitAll(p, b, w, at, owners, todo).0;
            w' == w.(workUnits := w'.workUnits, unresolved := w'.unresolved, blockers := w'.blockers,
                     frontier := w'.frontier, visited := w'.visited, budgetHit := w'.budgetHit)
    decreases |todo|
  {
    hide UnresolvedOf;
    if todo != [] && !w.budgetHit {
      var n := todo[0];
      var w1 := VisitOne(p, b, w, at, n);
      var taken := !w1.budgetHit && (n !in w.visited || w.visited[n] > at.depth);
      VisitAllFrame(p, b, w1, at, if taken then owners + [n] else owners, todo[1..]);
    }
  }

  /** A nested loop that runs to its end spends one unit an owner, and has visited
      every one of them: the new ones at the member's depth, the others where they were. */
  lemma {:induction false} VisitAllTakes(
      p: Problem, b: Budget, w: State, at: Frontier, owners: seq<NodeId>, todo: seq<NodeId>)
    requires !VisitAll(p, b, w, at, owners, todo).0.budgetHit
    requires forall n :: n in w.visited ==> w.visited[n] <= at.depth
    ensures var w' := VisitAll(p, b, w, at, owners, todo).0;
            && w'.workUnits == w.workUnits + |todo|
            && (forall n :: n in w'.visited <==> n in w.visited || n in todo)
            && (forall n :: n in w'.visited ==> w'.visited[n] == if n in w.visited then w.visited[n] else at.depth)
    decreases |todo|
  {
    hide UnresolvedOf;
    if todo != [] && !w.budgetHit {
      var n := todo[0];
      var w1 := VisitOne(p, b, w, at, n);
      var taken := !w1.budgetHit && (n !in w.visited || w.visited[n] > at.depth);
      if w1.budgetHit { VisitAllStopped(p, b, w1, at, if taken then owners + [n] else owners, todo[1..]); }
      VisitAllTakes(p, b, w1, at, if taken then owners + [n] else owners, todo[1..]);
    }
  }

  lemma VisitAllStopped(p: Problem, b: Budget, w: State, at: Frontier, owners: seq<NodeId>, todo: seq<NodeId>)
    requires w.budgetHit
    ensures VisitAll(p, b, w, at, owners, todo).0 == w
  {
  }

  lemma {:induction false} ExamineAllFrame(p: Problem, b: Budget, w: State, d: nat, edges: seq<Edge>)
    ensures var w' := ExamineAll(p, b, w, d, edges);
            w'.members == w.members && w'.visited == w.visited && w'.unresolved == w.unresolved
    decreases |edges|
  {
    hide Classify, Exhausted, SupportAll;
    if edges != [] {
      var e := edges[0];
      if e.provenance.binding.Some? {
        SupportAllCharges(p, Record(p, w, d, e), d + 1, e.provenance.binding.value, ImportEdges(p));
        SupportAllCharges(p, Enqueue(Record(p, w, d, e), d, e), d + 1, e.provenance.binding.value, ImportEdges(p));
      }
      ExamineAllFrame(p, b, ExamineOne(p, b, w, d, e), d, edges[1..]);
    }
  }
}
