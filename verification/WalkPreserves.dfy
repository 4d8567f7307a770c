/** Every iteration of the walk preserves the invariants of WalkInvariant. */
module WalkPreserves {
  import opened Ordering
  import opened GraphModel
  import opened Walk
  import opened WalkInvariant

  /** No runtime edge is recorded twice. */
  ghost predicate OnceEach(traversed: seq<EdgeEvidence>) {
    forall i, j :: 0 <= i < j < |traversed| && traversed[i].edge.kind.Runtime() && traversed[j].edge.kind.Runtime() ==>
      traversed[i].edge != traversed[j].edge
  }

  /** Members and examined edges are recorded once each, and the counters agree with the lists. */
  ghost predicate Tally(w: State) {
    && (forall i, j :: 0 <= i < j < |w.members| ==> w.members[i].node != w.members[j].node)
    && OnceEach(w.traversed)
    && w.edgesExamined == |Examined(w.traversed)|
    && w.serial <= w.edgesExamined
  }

  ghost predicate Inv(p: Problem, w: State, d: nat) {
    Depths(p, ViewOf(w), d) && Kept(p, ViewOf(w), Idle(p)) && Tally(w)
  }

  // ----- How the elementary operations change the view -----

  lemma ViewDefer(w: State, at: Frontier)
    ensures ViewOf(Defer(w, at)) == ViewOf(w).(frontier := ViewOf(w).frontier + {at.node})
  {
    assert at in w.frontier + [at];
    var v := ViewOf(Defer(w, at));
    assert forall n :: n in v.frontier <==> n in ViewOf(w).frontier + {at.node};
  }

  lemma ViewNote(w: State, items: seq<UnresolvedEdge>)
    ensures ViewOf(NoteUnresolved(w, items)) ==
            ViewOf(w).(blockers := ViewOf(w).blockers + (set u | u in items :: Unresolved(u)))
  {
    var more := AsBlockers(items);
    forall b ensures b in more <==> b in (set u | u in items :: Unresolved(u)) {
      if b in more {
        var k :| 0 <= k < |more| && more[k] == b;
        assert items[k] in items;
      }
      if b in (set u | u in items :: Unresolved(u)) {
        var u :| u in items && b == Unresolved(u);
        var k :| 0 <= k < |items| && items[k] == u;
        assert more[k] == b;
      }
    }
  }

  lemma ViewReject(w: State, ev: Evidence)
    ensures ViewOf(RecordRejection(w, ev)) == ViewOf(w).(blockers := ViewOf(w).blockers + {Rejected(ev)})
  {
  }

  lemma ViewMember(w: State, m: Member)
    ensures ViewOf(w.(members := w.members + [m])) == ViewOf(w).(members := ViewOf(w).members + {m.node})
  {
    assert m in w.members + [m];
    var v := ViewOf(w.(members := w.members + [m]));
    assert forall n :: n in v.members <==> n in ViewOf(w).members + {m.node};
  }

  lemma ExaminedAppend(traversed: seq<EdgeEvidence>, t: EdgeEvidence)
    ensures Examined(traversed + [t]) == Examined(traversed) + (if t.edge.kind.Runtime() then {t.edge} else {})
  {
    assert t in traversed + [t];
    forall e
      ensures e in Examined(traversed + [t]) <==>
              e in Examined(traversed) + (if t.edge.kind.Runtime() then {t.edge} else {})
    {
      if e in Examined(traversed) {
        var x :| x in traversed && x.edge.kind.Runtime() && x.edge == e;
        assert x in traversed + [t];
      }
    }
  }

  lemma ExaminedAt(traversed: seq<EdgeEvidence>, i: nat)
    requires i < |traversed| && traversed[i].edge.kind.Runtime()
    ensures traversed[i].edge in Examined(traversed)
  {
    assert traversed[i] in traversed;
  }

  lemma ViewRecord(p: Problem, w: State, depth: nat, e: Edge)
    requires e.kind.Runtime()
    ensures var v := ViewOf(w);
            ViewOf(Record(p, w, depth, e)) ==
            v.(edges := v.edges + {e},
                blockers := v.blockers + (if Rejects(p, e) then {Rejected(Classify(p, e.target, Some(e)))} else {}))
  {
    hide Classify;
    var ev := Classify(p, e.target, Some(e));
    ExaminedAppend(w.traversed, EdgeEvidence(depth + 1, e, ev.disposition, ev.ruleId));
    assert (set b | b in w.blockers + [Rejected(ev)]) == (set b | b in w.blockers) + {Rejected(ev)};
  }

  lemma ViewEnqueue(w: State, depth: nat, e: Edge)
    ensures var v := ViewOf(w);
            ViewOf(Enqueue(w, depth, e)) == v.(queue := v.queue + {Entry(depth + 1, w.serial + 1, e.target, Some(e))})
  {
    var entry := Entry(depth + 1, w.serial + 1, e.target, Some(e));
    assert (set q | q in w.queue + [entry]) == (set q | q in w.queue) + {entry};
  }

  // ----- Import support changes neither the walk's edges nor its queue -----

  ghost predicate OnlySupports(w: State, w': State) {
    && w' == w.(workUnits := w'.workUnits, dispositions := w'.dispositions, traversed := w'.traversed,
                blockers := w'.blockers, external := w'.external)
    && w.blockers <= w'.blockers
    && Examined(w'.traversed) == Examined(w.traversed)
    && (Tally(w) ==> Tally(w'))
  }

  lemma SupportOneKeeps(p: Problem, w: State, depth: nat, imp: Edge)
    requires imp.kind.Imports?
    ensures OnlySupports(w, SupportOne(p, w, depth, imp))
  {
    hide Classify;
    var ev := Classify(p, imp.target, Some(imp));
    ExaminedAppend(w.traversed, EdgeEvidence(depth, imp, ev.disposition, ev.ruleId));
  }

  lemma {:induction false} SupportAllKeeps(p: Problem, w: State, depth: nat, binding: SourceRef, imports: seq<Edge>)
    requires forall e :: e in imports ==> e.kind.Imports?
    ensures OnlySupports(w, SupportAll(p, w, depth, binding, imports))
    decreases |imports|
  {
    hide SupportOne, Tally;
    if imports != [] {
      SupportOneKeeps(p, w, depth, imports[0]);
      var w1 := if Supports(imports[0], binding) then SupportOne(p, w, depth, imports[0]) else w;
      SupportAllKeeps(p, w1, depth, binding, imports[1..]);
    }
  }

  lemma ViewOnlySupports(w: State, w': State)
    requires OnlySupports(w, w')
    ensures ViewOf(w') == ViewOf(w).(blockers := ViewOf(w').blockers)
    ensures ViewOf(w).blockers <= ViewOf(w').blockers
  {
    forall b | b in w.blockers ensures b in w'.blockers {
      var k :| 0 <= k < |w.blockers| && w.blockers[k] == b;
      assert w'.blockers[k] == b;
    }
  }

  // ----- Examining edges -----

  /** The edges about to be examined: distinct, unexamined, and owned by nodes visited at depth `d`. */
  ghost predicate Fresh(p: Problem, v: View, d: nat, edges: seq<Edge>) {
    && NoDuplicates(edges)
    && (forall e :: e in edges ==>
          e !in v.edges && e.kind.Runtime() && e.source in v.visited && v.visited[e.source] == d &&
              e in Outgoing(p, e.source))
  }

  lemma TallyRecord(p: Problem, w: State, depth: nat, e: Edge)
    requires Tally(w) && e.kind.Runtime() && e !in Examined(w.traversed)
    ensures Tally(Record(p, w, depth, e))
    ensures Record(p, w, depth, e).serial < Record(p, w, depth, e).edgesExamined
  {
    hide Classify, Examined, EdgeKind.Runtime;
    var ev := Classify(p, e.target, Some(e));
    var t := EdgeEvidence(depth + 1, e, ev.disposition, ev.ruleId);
    ExaminedAppend(w.traversed, t);
    forall i | 0 <= i < |w.traversed| && w.traversed[i].edge.kind.Runtime() ensures w.traversed[i].edge != e {
      ExaminedAt(w.traversed, i);
    }
  }

  lemma DepthsFrame(p: Problem, v: View, v': View, d: nat)
    requires Depths(p, v, d) && v'.visited == v.visited && v'.queue == v.queue
    ensures Depths(p, v', d)
  {
  }

  lemma DepthsEnqueued(p: Problem, v: View, d: nat, q: Entry)
    requires Depths(p, v, d) && Queued(p, v.visited, q) && d <= q.depth
    ensures Depths(p, v.(queue := v.queue + {q}), d)
  {
    hide ReachedAt, Queued;
  }

  lemma ViewFields(w: State)
    ensures ViewOf(w).visited == w.visited && ViewOf(w).edges == Examined(w.traversed)
  {
  }

  lemma TallyEnqueue(w: State, depth: nat, e: Edge)
    requires Tally(w) && w.serial < w.edgesExamined
    ensures Tally(Enqueue(w, depth, e))
  {
  }

  lemma TallyDefer(w: State, at: Frontier)
    requires Tally(w)
    ensures Tally(Defer(w, at))
  {
  }

  /** `w'` examines exactly the edge `e` on top of `w`, and the invariants hold with `e` out of hand. */
  ghost predicate Examines(p: Problem, w: State, d: nat, e: Edge, h: Hand, w': State) {
    && Depths(p, ViewOf(w'), d) && Kept(p, ViewOf(w'), h.(pending := h.pending - {e})) && Tally(w')
    && w'.visited == w.visited && ViewOf(w').edges == ViewOf(w).edges + {e}
  }

  ghost predicate Examinable(p: Problem, w: State, d: nat, e: Edge, h: Hand) {
    && Lawful(p) && Depths(p, ViewOf(w), d) && Kept(p, ViewOf(w), h) && Tally(w)
    && e !in ViewOf(w).edges && e.kind.Runtime() && e.source in w.visited && w.visited[e.source] == d &&
       e in Outgoing(p, e.source)
  }

  lemma ExamineUnfollowed(p: Problem, w: State, d: nat, e: Edge, h: Hand)
    requires Examinable(p, w, d, e, h) && !Includes(p, e.target)
    ensures Examines(p, w, d, e, h, Record(p, w, d, e))
  {
    hide Classify, Kept, Depths, Nested, Outgoing;
    ViewRecord(p, w, d, e);
    TallyRecord(p, w, d, e);
    KeptExamined(p, ViewOf(w), h, e, ViewOf(Record(p, w, d, e)));
    DepthsFrame(p, ViewOf(w), ViewOf(Record(p, w, d, e)), d);
  }

  lemma ExamineDeferred(p: Problem, w: State, d: nat, e: Edge, h: Hand)
    requires Examinable(p, w, d, e, h)
    ensures Examines(p, w, d, e, h, Defer(Record(p, w, d, e), Frontier(d + 1, e.target, Some(e))))
  {
    hide Classify, Kept, Depths, Nested, Outgoing;
    var w1, at := Record(p, w, d, e), Frontier(d + 1, e.target, Some(e));
    var v' := ViewOf(Defer(w1, at));
    ViewRecord(p, w, d, e);
    ViewDefer(w1, at);
    TallyRecord(p, w, d, e);
    TallyDefer(w1, at);
    assert Followed(v', e);
    KeptExamined(p, ViewOf(w), h, e, v');
    DepthsFrame(p, ViewOf(w), v', d);
  }

  lemma ExamineEnqueued(p: Problem, w: State, d: nat, e: Edge, h: Hand)
    requires Examinable(p, w, d, e, h) && Includes(p, e.target)
    ensures Examines(p, w, d, e, h, Enqueue(Record(p, w, d, e), d, e))
  {
    hide Classify, Kept, Depths, Nested, Outgoing, Includes, Rejects, Lawful, Tally, ViewOf;
    var w1 := Record(p, w, d, e);
    ViewFields(w);
    var q := Entry(d + 1, w1.serial + 1, e.target, Some(e));
    var v' := ViewOf(Enqueue(w1, d, e));
    ViewRecord(p, w, d, e);
    ViewEnqueue(w1, d, e);
    TallyRecord(p, w, d, e);
    TallyEnqueue(w1, d, e);
    assert q in v'.queue && q.node == e.target && q.depth == v'.visited[e.source] + 1;
    assert Followed(v', e);
    KeptExamined(p, ViewOf(w), h, e, v');
    DepthsFrame(p, ViewOf(w), ViewOf(w1), d);
    DepthsEnqueued(p, ViewOf(w1), d, q);
  }

  lemma ExamineSupported(p: Problem, w: State, d: nat, e: Edge, h: Hand, w1: State, w2: State)
    requires Examines(p, w, d, e, h, w1) && OnlySupports(w1, w2)
    ensures Examines(p, w, d, e, h, w2)
  {
    hide Kept, Depths, Nested, Outgoing;
    ViewOnlySupports(w1, w2);
    KeptGrows(p, ViewOf(w1), h.(pending := h.pending - {e}), ViewOf(w2));
    DepthsFrame(p, ViewOf(w1), ViewOf(w2), d);
  }

  lemma ExamineOneKeeps(p: Problem, b: Budget, w: State, d: nat, e: Edge, h: Hand)
    requires Examinable(p, w, d, e, h)
    ensures Examines(p, w, d, e, h, ExamineOne(p, b, w, d, e))
  {
    hide Classify, Examines, Examinable, SupportAll, Record, Enqueue, Defer, Exhausted, OnlySupports;
    ExamineDeferred(p, w, d, e, h);
    if Includes(p, e.target) {
      ExamineEnqueued(p, w, d, e, h);
    } else {
      ExamineUnfollowed(p, w, d, e, h);
    }
    if e.provenance.binding.Some? {
      var w2 := if Includes(p, e.target) then Enqueue(Record(p, w, d, e), d, e) else Record(p, w, d, e);
      assert Lawful(p) by { ExaminableIsLawful(p, w, d, e, h); }
      SupportAllKeeps(p, w2, d + 1, e.provenance.binding.value, ImportEdges(p));
      ExamineSupported(p, w, d, e, h, w2, SupportAll(p, w2, d + 1, e.provenance.binding.value, ImportEdges(p)));
    }
  }

  lemma ExaminableIsLawful(p: Problem, w: State, d: nat, e: Edge, h: Hand)
    requires Examinable(p, w, d, e, h)
    ensures Lawful(p)
  {
  }

  lemma {:induction false} ExamineAllKeeps(p: Problem, b: Budget, w: State, d: nat, edges: seq<Edge>, h: Hand)
    requires Lawful(p) && Depths(p, ViewOf(w), d) && Kept(p, ViewOf(w), h) && Tally(w)
    requires Fresh(p, ViewOf(w), d, edges) && h.pending == EdgeSet(edges)
    ensures var w' := ExamineAll(p, b, w, d, edges);
            && Depths(p, ViewOf(w'), d) && Kept(p, ViewOf(w'), h.(pending := {})) && Tally(w')
    decreases |edges|
  {
    hide Kept, Depths, Tally, ExamineOne, Nested, Outgoing, Lawful;
    if edges == [] {
      assert h == h.(pending := {});
    } else {
      var e := edges[0];
      ViewFields(w);
      assert Examinable(p, w, d, e, h);
      ExamineOneKeeps(p, b, w, d, e, h);
      var w1 := ExamineOne(p, b, w, d, e);
      var h1 := h.(pending := h.pending - {e});
      ViewFields(w1);
      assert h1.pending == EdgeSet(edges[1..]);
      assert Fresh(p, ViewOf(w1), d, edges[1..]);
      ExamineAllKeeps(p, b, w1, d, edges[1..], h1);
    }
  }

  // ----- Taking nested owners -----

  lemma EdgesOfAppend(p: Problem, owners: seq<NodeId>, n: NodeId)
    ensures EdgesOf(p, owners + [n]) == EdgesOf(p, owners) + Outgoing(p, n)
  {
    assert (owners + [n])[..|owners|] == owners;
  }

  lemma {:induction false} EdgesOfMembers(p: Problem, owners: seq<NodeId>, e: Edge)
    ensures e in EdgesOf(p, owners) <==> exists n :: n in owners && e in Outgoing(p, n)
  {
    hide Outgoing;
    if owners != [] {
      var front, n := owners[..|owners| - 1], owners[|owners| - 1];
      assert owners == front + [n];
      EdgesOfMembers(p, front, e);
      EdgesOfAppend(p, front, n);
      if exists m :: m in owners && e in Outgoing(p, m) {
        var m :| m in owners && e in Outgoing(p, m);
        assert m == n || m in front;
      }
    }
  }

  lemma {:induction false} EdgesOfDistinct(p: Problem, owners: seq<NodeId>)
    requires Lawful(p) && NoDuplicates(owners)
    ensures NoDuplicates(EdgesOf(p, owners))
  {
    hide Outgoing, Nested;
    if owners != [] {
      var front, n := owners[..|owners| - 1], owners[|owners| - 1];
      assert owners == front + [n];
      EdgesOfDistinct(p, front);
      EdgesOfAppend(p, front, n);
      forall e | e in EdgesOf(p, front) ensures e !in Outgoing(p, n) {
        EdgesOfMembers(p, front, e);
        var m :| m in front && e in Outgoing(p, m);
        assert m != n && e.source == m;
      }
      var a, b := EdgesOf(p, front), Outgoing(p, n);
      forall i, j | 0 <= i < j < |a + b| ensures (a + b)[i] != (a + b)[j] {
        if i < |a| <= j { assert a[i] in a && b[j - |a|] in b; }
      }
    }
  }

  /** Owners in hand: distinct, visited at the member's depth, the member or nested in it, with no edge examined yet. */
  ghost predicate Owned(p: Problem, v: View, at: Frontier, owners: seq<NodeId>) {
    && NoDuplicates(owners)
    && (forall n :: n in owners ==>
          n in v.visited && v.visited[n] == at.depth && (n == at.node || n in Nested(p, at.node)))
    && (forall e :: e in EdgesOf(p, owners) ==> e !in v.edges)
    && at.node in v.members && at.node in v.visited && v.visited[at.node] == at.depth
  }

  function HandOf(p: Problem, at: Frontier, owners: seq<NodeId>, todo: seq<NodeId>): Hand {
    Hand({}, EdgeSet(EdgesOf(p, owners)), at.node, set c | c in todo)
  }

  ghost predicate Visiting(p: Problem, w: State, at: Frontier, owners: seq<NodeId>, todo: seq<NodeId>) {
    && Lawful(p) && Depths(p, ViewOf(w), at.depth) && Kept(p, ViewOf(w), HandOf(p, at, owners, todo)) && Tally(w)
    && Owned(p, ViewOf(w), at, owners)
    && (forall c :: c in todo ==> c in Nested(p, at.node))
  }

  lemma TallyVisited(w: State, w': State)
    requires Tally(w) && w'.members == w.members && w'.traversed == w.traversed
    requires w'.edgesExamined == w.edgesExamined && w'.serial == w.serial
    ensures Tally(w')
  {
  }

  lemma DepthsNested(p: Problem, v: View, d: nat, owner: NodeId, c: NodeId)
    requires Depths(p, v, d) && owner in v.visited && v.visited[owner] == d && c in Nested(p, owner) && c !in v.visited
    ensures Depths(p, v.(visited := v.visited[c := d]), d)
  {
    hide ReachedAt, Nested, Outgoing, Includes;
    LegalExactly(p, Into(owner, c));
    HopReached(p, Into(owner, c), d);
    var v' := v.(visited := v.visited[c := d]);
    forall q | q in v'.queue ensures Queued(p, v'.visited, q) {
      assert Queued(p, v.visited, q);
    }
  }

  /** Giving up in the middle of the nested owners leaves the member itself on the frontier. */
  lemma VisitGivenUp(p: Problem, w: State, at: Frontier, owners: seq<NodeId>, todo: seq<NodeId>)
    requires Visiting(p, w, at, owners, todo)
    ensures var w' := Defer(w, at); Depths(p, ViewOf(w'), at.depth) && Kept(p, ViewOf(w'), Idle(p)) && Tally(w')
  {
    hide Kept, Depths, Nested, Outgoing, EdgesOf;
    var h := HandOf(p, at, owners, todo);
    ViewDefer(w, at);
    TallyDefer(w, at);
    var v' := ViewOf(Defer(w, at));
    DepthsFrame(p, ViewOf(w), v', at.depth);
    KeptGrows(p, ViewOf(w), h, v');
    forall e | e in h.pending ensures e.source == at.node || e.source in Nested(p, at.node) {
      EdgesOfMembers(p, owners, e);
    }
    KeptGivenUp(p, v', h);
  }

  lemma VisitNew(p: Problem, w: State, at: Frontier, owners: seq<NodeId>, todo: seq<NodeId>)
    requires Visiting(p, w, at, owners, todo) && todo != [] && todo[0] !in w.visited
    ensures var w' := NoteUnresolved(w.(visited := w.visited[todo[0] := at.depth]), UnresolvedOf(p, todo[0]));
            Visiting(p, w', at, owners + [todo[0]], todo[1..])
  {
    hide Kept, Depths, Nested, Outgoing, EdgesOf, UnresolvedOf, Lawful, ViewOf, Tally;
    var c := todo[0];
    var v, h := ViewOf(w), HandOf(p, at, owners, todo);
    var w1 := w.(visited := w.visited[c := at.depth]);
    var w' := NoteUnresolved(w1, UnresolvedOf(p, c));
    ViewFields(w);
    assert ViewOf(w1) == v.(visited := v.visited[c := at.depth]) by { ViewRevisited(w, c, at.depth); }
    ViewNote(w1, UnresolvedOf(p, c));
    var v' := ViewOf(w');
    KeptNestedNew(p, v, h, c);
    DepthsNested(p, v, at.depth, at.node, c);
    DepthsFrame(p, v.(visited := v.visited[c := at.depth]), v', at.depth);
    EdgesOfAppend(p, owners, c);
    assert HandOf(p, at, owners + [c], todo[1..]).pending == h.pending + EdgeSet(Outgoing(p, c));
    ViewFields(w');
    TallyVisited(w, w');
    VisitNewHand(p, v', h, at, owners, todo);
    assert forall e :: e in v.edges ==> e.source in v.visited by { KeptSources(p, v, h); }
    VisitNewOwned(p, v, v', at, owners, c);
  }

  lemma KeptSources(p: Problem, v: View, h: Hand)
    requires Kept(p, v, h)
    ensures forall e :: e in v.edges ==> e.source in v.visited
    ensures forall m :: m in v.members ==> m in v.visited
  {
  }

  lemma ViewRevisited(w: State, c: NodeId, d: nat)
    ensures ViewOf(w.(visited := w.visited[c := d])) == ViewOf(w).(visited := w.visited[c := d])
  {
  }

  /** The list of remaining owners may repeat none of the ones taken. */
  lemma VisitNewHand(p: Problem, v: View, h: Hand, at: Frontier, owners: seq<NodeId>, todo: seq<NodeId>)
    requires todo != [] && h == HandOf(p, at, owners, todo)
    requires Kept(p, v, h.(pending := h.pending + EdgeSet(Outgoing(p, todo[0])), todo := h.todo - {todo[0]}))
    ensures Kept(p, v, HandOf(p, at, owners + [todo[0]], todo[1..]))
  {
    hide Outgoing, Nested, EdgesOf, UnresolvedOf, Accounted, Followed, NodeRejected, Deferred, Includes, Rejects,
         Classify;
    EdgesOfAppend(p, owners, todo[0]);
    var g := h.(pending := h.pending + EdgeSet(Outgoing(p, todo[0])), todo := h.todo - {todo[0]});
    var g' := HandOf(p, at, owners + [todo[0]], todo[1..]);
    assert g'.pending == g.pending;
    assert todo == [todo[0]] + todo[1..];
    assert g.todo <= g'.todo;
  }

  lemma VisitNewOwned(p: Problem, v: View, v': View, at: Frontier, owners: seq<NodeId>, c: NodeId)
    requires Lawful(p) && Owned(p, v, at, owners)
    requires v' == v.(visited := v.visited[c := at.depth], blockers := v'.blockers)
    requires c !in v.visited && c in Nested(p, at.node)
    requires forall e :: e in v.edges ==> e.source in v.visited
    ensures Owned(p, v', at, owners + [c])
  {
    hide Outgoing, Nested, EdgesOf;
    EdgesOfAppend(p, owners, c);
    forall e | e in EdgesOf(p, owners + [c]) ensures e !in v'.edges {
      if e in Outgoing(p, c) { assert e.source == c; }
    }
  }

  lemma VisitOld(p: Problem, w: State, at: Frontier, owners: seq<NodeId>, todo: seq<NodeId>)
    requires Visiting(p, w, at, owners, todo) && todo != [] && todo[0] in w.visited
    ensures w.visited[todo[0]] <= at.depth
    ensures Visiting(p, w, at, owners, todo[1..])
  {
    hide Outgoing, Nested, EdgesOf, UnresolvedOf, Accounted, Followed, NodeRejected, Deferred, Includes, Rejects,
         Classify, ReachedAt, Queued;
    var h := HandOf(p, at, owners, todo);
    KeptNestedOld(p, ViewOf(w), h, todo[0]);
    assert todo == [todo[0]] + todo[1..];
    assert h.todo - {todo[0]} <= HandOf(p, at, owners, todo[1..]).todo;
  }

  /** After the nested loop: every nested owner is taken, or the member is openly given up. */
  lemma {:induction false} VisitAllKeeps(
      p: Problem, b: Budget, w: State, at: Frontier, owners: seq<NodeId>, todo: seq<NodeId>)
    requires Visiting(p, w, at, owners, todo) && !w.budgetHit
    ensures var (w', owners') := VisitAll(p, b, w, at, owners, todo);
            if w'.budgetHit then Depths(p, ViewOf(w'), at.depth) && Kept(p, ViewOf(w'), Idle(p)) && Tally(w')
            else Visiting(p, w', at, owners', [])
    decreases |todo|
  {
    hide Kept, Depths, Tally, Nested, Outgoing, EdgesOf, ViewOf, Lawful, Owned, HandOf, UnresolvedOf, Visiting,
         NoteUnresolved;
    if todo != [] {
      var c := todo[0];
      var w1 := w.(workUnits := w.workUnits + 1);
      VisitingWork(p, w, at, owners, todo);
      if w1.workUnits > b.maxWorkUnits {
        VisitGivenUp(p, w1, at, owners, todo);
        assert VisitAll(p, b, w, at, owners, todo).0 == Defer(w1, at);
      } else if c in w.visited {
        VisitOld(p, w1, at, owners, todo);
        VisitAllKeeps(p, b, w1, at, owners, todo[1..]);
      } else {
        VisitNew(p, w1, at, owners, todo);
        var w2 := NoteUnresolved(w1.(visited := w1.visited[c := at.depth]), UnresolvedOf(p, c));
        assert !w2.budgetHit by { NoteKeepsRunning(w1.(visited := w1.visited[c := at.depth]), UnresolvedOf(p, c)); }
        VisitAllKeeps(p, b, w2, at, owners + [c], todo[1..]);
      }
    }
  }

  lemma NoteKeepsRunning(w: State, items: seq<UnresolvedEdge>)
    ensures NoteUnresolved(w, items).budgetHit == w.budgetHit
  {
  }

  lemma VisitingWork(p: Problem, w: State, at: Frontier, owners: seq<NodeId>, todo: seq<NodeId>)
    requires Visiting(p, w, at, owners, todo)
    ensures Visiting(p, w.(workUnits := w.workUnits + 1), at, owners, todo)
  {
    hide Kept, Depths, Nested, Outgoing, EdgesOf;
    assert ViewOf(w.(workUnits := w.workUnits + 1)) == ViewOf(w);
  }

  // ----- Expanding, reaching, stepping -----

  lemma KeptIdle(p: Problem, v: View, h: Hand)
    requires Kept(p, v, h) && h.reached == {} && h.pending == {} && h.todo == {}
    ensures Kept(p, v, Idle(p))
  {
    hide Outgoing, Nested, UnresolvedOf, Accounted, Followed, NodeRejected, Deferred, Includes, Rejects, Classify;
  }

  /** The edges of the owners taken up are each examined for the first time. */
  lemma FreshEdges(p: Problem, w: State, at: Frontier, owners: seq<NodeId>)
    requires Visiting(p, w, at, owners, [])
    ensures Fresh(p, ViewOf(w), at.depth, Sort(EdgeLess, EdgesOf(p, owners)))
  {
    hide Kept, Depths, Tally, Nested, Outgoing, ViewOf, Lawful;
    var edges := Sort(EdgeLess, EdgesOf(p, owners));
    SameMembers(edges, EdgesOf(p, owners));
    EdgesOfDistinct(p, owners);
    SortKeepsDistinct(EdgeLess, EdgesOf(p, owners));
    forall e | e in edges
      ensures e !in ViewOf(w).edges && e.kind.Runtime() && e.source in ViewOf(w).visited
           && ViewOf(w).visited[e.source] == at.depth && e in Outgoing(p, e.source)
    {
      EdgesOfMembers(p, owners, e);
      LawfulEdges(p, owners, e);
    }
  }

  lemma ExpandKeeps(p: Problem, b: Budget, w: State, at: Frontier)
    requires Visiting(p, w, at, [at.node], Nested(p, at.node)) && !w.budgetHit
    ensures Inv(p, Expand(p, b, w, at), at.depth)
  {
    hide Kept, Depths, Tally, Nested, Outgoing, ViewOf, Lawful, VisitAll, ExamineAll;
    var (w1, owners) := VisitAll(p, b, w, at, [at.node], Nested(p, at.node));
    VisitAllKeeps(p, b, w, at, [at.node], Nested(p, at.node));
    if !w1.budgetHit {
      var edges := Sort(EdgeLess, EdgesOf(p, owners));
      SameMembers(edges, EdgesOf(p, owners));
      FreshEdges(p, w1, at, owners);
      var h := HandOf(p, at, owners, []);
      assert h.pending == EdgeSet(edges);
      ExamineAllKeeps(p, b, w1, at.depth, edges, h);
      KeptIdle(p, ViewOf(ExamineAll(p, b, w1, at.depth, edges)), h.(pending := {}));
    }
  }

  lemma LawfulEdges(p: Problem, owners: seq<NodeId>, e: Edge)
    requires Lawful(p) && e in EdgesOf(p, owners)
    ensures e.source in owners && e in Outgoing(p, e.source) && e.kind.Runtime()
  {
    hide Nested, Outgoing;
    EdgesOfMembers(p, owners, e);
  }

  /** A node just popped and marked visited at the popped depth. */
  ghost predicate Reached(p: Problem, w: State, at: Frontier) {
    && Lawful(p) && Depths(p, ViewOf(w), at.depth) && Tally(w)
    && Kept(p, ViewOf(w), Idle(p).(reached := {at.node}))
    && at.node in w.visited && w.visited[at.node] == at.depth && at.node !in ViewOf(w).members
    && (forall e :: e in ViewOf(w).edges ==> e.source != at.node)
  }

  lemma AdmitVisits(p: Problem, w: State, at: Frontier, m: Member)
    requires Reached(p, w, at) && m.node == at.node
    ensures Visiting(p, Admit(p, w, m), at, [at.node], Nested(p, at.node))
  {
    hide Kept, Depths, Nested, Outgoing, Lawful, UnresolvedOf;
    var v := ViewOf(w);
    var w1 := w.(members := w.members + [m]);
    var w' := Admit(p, w, m);
    ViewMember(w, m);
    ViewNote(w1, UnresolvedOf(p, m.node));
    KeptAdmitted(p, v, at.node);
    assert [at.node][..0] == [];
    assert EdgesOf(p, [at.node]) == Outgoing(p, at.node);
    assert HandOf(p, at, [at.node], Nested(p, at.node)) ==
           Hand({}, EdgeSet(Outgoing(p, at.node)), at.node, set c | c in Nested(p, at.node));
    DepthsFrame(p, v, ViewOf(w'), at.depth);
    forall i | 0 <= i < |w.members| ensures w.members[i].node != m.node {
      assert w.members[i] in w.members;
    }
    forall e | e in EdgesOf(p, [at.node]) ensures e !in ViewOf(w').edges {
      LawfulEdges(p, [at.node], e);
    }
  }

  lemma ReachKeeps(p: Problem, b: Budget, w: State, at: Frontier)
    requires Reached(p, w, at) && !w.budgetHit
    ensures Inv(p, Reach(p, b, w, at), at.depth)
  {
    hide Kept, Depths, Nested, Outgoing, Lawful, Refusal, Oversized, Expand, UnresolvedOf;
    if Refusal(p, at.node).Some? {
      var ev := SourceRejection(p, at.node, at.incoming);
      ViewReject(w, ev);
      KeptRefused(p, ViewOf(w), at.node, at.incoming);
      DepthsFrame(p, ViewOf(w), ViewOf(RecordRejection(w, ev)), at.depth);
      TallyVisited(w, RecordRejection(w, ev));
    } else {
      var m := MemberOf(p, at.node);
      if Oversized(p, b, w.members + [m]) {
        ViewDefer(w, at);
        TallyDefer(w, at);
        KeptOversized(p, ViewOf(w), at.node);
        DepthsFrame(p, ViewOf(w), ViewOf(Defer(w, at)), at.depth);
      } else {
        AdmitVisits(p, w, at, m);
        ExpandKeeps(p, b, Admit(p, w, m), at);
      }
    }
  }

  function Popped(w: State): Entry
    requires w.queue != []
  {
    w.queue[Least(w.queue)]
  }

  /** The heap yields a least depth, and recomputing that depth from `visited` gives the queued one. */
  lemma PopDepth(p: Problem, w: State, d: nat)
    requires Depths(p, ViewOf(w), d) && w.queue != []
    ensures d <= Popped(w).depth == EntryDepth(w.visited, Popped(w).incoming)
    ensures Queued(p, w.visited, Popped(w))
    ensures forall q :: q in w.queue ==> Popped(w).depth <= q.depth
    ensures Popped(w).node in w.visited ==> w.visited[Popped(w).node] <= Popped(w).depth
  {
    hide ReachedAt, Least;
    var e := Popped(w);
    assert e in ViewOf(w).queue;
    assert Queued(p, w.visited, e);
    forall q | q in w.queue ensures e.depth <= q.depth {
      var k :| 0 <= k < |w.queue| && w.queue[k] == q;
      LeastHasLeastDepth(w.queue, k);
    }
  }

  /** A state after the least entry is gone. */
  function Rest(w: State): State
    requires w.queue != []
  {
    w.(queue := RemoveAt(w.queue, Least(w.queue)), workUnits := w.workUnits + 1)
  }

  lemma RestQueue(w: State)
    requires w.queue != []
    ensures ViewOf(Rest(w)).queue <= ViewOf(w).queue <= ViewOf(Rest(w)).queue + {Popped(w)}
    ensures ViewOf(Rest(w)) == ViewOf(w).(queue := ViewOf(Rest(w)).queue)
  {
    hide Least;
    RemoveAtMembers(w.queue, Least(w.queue));
  }

  lemma RestDepths(p: Problem, w: State, d: nat)
    requires Depths(p, ViewOf(w), d) && w.queue != []
    ensures Depths(p, ViewOf(Rest(w)), Popped(w).depth)
  {
    hide ReachedAt, Queued, Least;
    PopDepth(p, w, d);
    RestQueue(w);
    assert forall q :: q in ViewOf(Rest(w)).queue ==> q in w.queue;
  }

  lemma KeptRequeued(p: Problem, v: View, e: Entry, e': Entry, v': View)
    requires Kept(p, v, Idle(p))
    requires e'.node == e.node && e'.depth == e.depth
    requires v' == v.(queue := v'.queue) && v.queue <= v'.queue + {e} && e' in v'.queue
    ensures Kept(p, v', Idle(p))
  {
    hide Nested, Outgoing, UnresolvedOf, Refusal, Includes, Rejects, Classify;
    forall n | NodeRejected(p, v, n) ensures NodeRejected(p, v', n) {}
    forall n | Deferred(p, v, n) ensures Deferred(p, v', n) {}
    forall n | Accounted(p, v, n) ensures Accounted(p, v', n) {}
    forall x | Followed(v, x) ensures Followed(v', x) {
      var depth := v.visited[x.source] + 1;
      if !(x.target in v.visited && v.visited[x.target] <= depth) && x.target !in v.frontier {
        var q :| q in v.queue && q.node == x.target && q.depth == depth;
        if q == e { assert e'.node == x.target && e'.depth == depth; } else { assert q in v'.queue; }
      }
    }
    if !(p.seed in v.visited && v.visited[p.seed] == 0) {
      var q :| q in v.queue && q.node == p.seed && q.depth == 0;
      if q == e { assert e'.node == p.seed; } else { assert q in v'.queue; }
    }
  }

  lemma RequeueKeeps(p: Problem, w: State, d: nat, serial: nat)
    requires Inv(p, w, d) && w.queue != []
    ensures var e, r := Popped(w), Rest(w);
            Inv(p, r.(queue := r.queue + [Entry(e.depth, serial, e.node, e.incoming)], budgetHit := true), e.depth)
  {
    hide Kept, Depths, Queued, Least;
    var e, r := Popped(w), Rest(w);
    var e' := Entry(e.depth, serial, e.node, e.incoming);
    var w' := r.(queue := r.queue + [e'], budgetHit := true);
    PopDepth(p, w, d);
    RestQueue(w);
    RestDepths(p, w, d);
    assert ViewOf(w') == ViewOf(r).(queue := ViewOf(r).queue + {e'}) by {
      assert (set q | q in r.queue + [e']) == (set q | q in r.queue) + {e'};
    }
    QueuedSerial(p, w.visited, e, e');
    DepthsEnqueued(p, ViewOf(r), e.depth, e');
    KeptRequeued(p, ViewOf(w), e, e', ViewOf(w'));
    TallyVisited(w, w');
  }

  lemma QueuedSerial(p: Problem, visited: map<NodeId, nat>, e: Entry, e': Entry)
    requires Queued(p, visited, e) && e' == e.(serial := e'.serial)
    ensures Queued(p, visited, e')
  {
  }

  lemma QueuedReached(p: Problem, v: View, d: nat, e: Entry)
    requires Depths(p, v, d) && Queued(p, v.visited, e)
    ensures ReachedAt(p, e.node, e.depth)
  {
    hide Nested, Outgoing, Includes;
    match e.incoming
    case None => SeedReached(p);
    case Some(x) =>
      assert ReachedAt(p, x.source, v.visited[x.source]);
      LegalExactly(p, Follow(x));
      HopReached(p, Follow(x), v.visited[x.source]);
  }

  lemma DepthsVisited(p: Problem, v: View, n: NodeId, d: nat)
    requires Depths(p, v, d) && n !in v.visited && ReachedAt(p, n, d)
    ensures Depths(p, v.(visited := v.visited[n := d]), d)
  {
    hide ReachedAt, Nested, Outgoing, Includes;
    var v' := v.(visited := v.visited[n := d]);
    forall q | q in v'.queue ensures Queued(p, v'.visited, q) { assert Queued(p, v.visited, q); }
  }

  lemma PopReaches(p: Problem, w: State, d: nat)
    requires Lawful(p) && Inv(p, w, d) && w.queue != [] && Popped(w).node !in w.visited
    ensures var e, r := Popped(w), Rest(w);
            Reached(p, r.(visited := r.visited[e.node := e.depth]), Frontier(e.depth, e.node, e.incoming))
  {
    hide Least, Kept, Depths, Queued, Lawful, ViewOf, Tally;
    var e, r := Popped(w), Rest(w);
    PopDepth(p, w, d);
    RestQueue(w);
    RestDepths(p, w, d);
    PoppedQueued(w);
    VisitedBelow(p, w, d);
    ViewFields(w);
    var w' := r.(visited := r.visited[e.node := e.depth]);
    ViewRevisited(r, e.node, e.depth);
    KeptPopped(p, ViewOf(w), e, ViewOf(w'));
    QueuedReached(p, ViewOf(w), d, e);
    DepthsVisited(p, ViewOf(r), e.node, e.depth);
    TallyVisited(w, w');
    KeptSources(p, ViewOf(w), Idle(p));
  }

  /** One iteration keeps the invariants, at a depth that never decreases; the
      recomputed depth is the queued one, and a visited node is never reopened. */
  lemma StepKeeps(p: Problem, b: Budget, w: State, d: nat)
    requires Lawful(p) && Inv(p, w, d) && Running(w)
    ensures d <= Popped(w).depth == EntryDepth(w.visited, Popped(w).incoming)
    ensures Popped(w).node in w.visited ==> w.visited[Popped(w).node] <= Popped(w).depth
    ensures Inv(p, Step(p, b, w), Popped(w).depth)
  {
    hide Kept, Depths, Tally, Least, Lawful, Reach, Reached, Queued, ViewOf;
    PopDepth(p, w, d);
    var e, r := Popped(w), Rest(w);
    if r.workUnits > b.maxWorkUnits {
      RequeueKeeps(p, w, d, w.serial);
    } else if e.node in w.visited {
      RestDepths(p, w, d);
      RestQueue(w);
      assert e in ViewOf(w).queue by { PoppedQueued(w); }
      assert forall n :: n in ViewOf(w).visited ==> ViewOf(w).visited[n] <= e.depth by { VisitedBelow(p, w, d); }
      ViewFields(w);
      KeptPopped(p, ViewOf(w), e, ViewOf(r));
      TallyVisited(w, r);
    } else {
      PopReaches(p, w, d);
      ReachKeeps(p, b, r.(visited := r.visited[e.node := e.depth]), Frontier(e.depth, e.node, e.incoming));
    }
  }

  lemma PoppedQueued(w: State)
    requires w.queue != []
    ensures Popped(w) in ViewOf(w).queue
  {
  }

  lemma VisitedBelow(p: Problem, w: State, d: nat)
    requires Depths(p, ViewOf(w), d) && w.queue != []
    ensures forall n :: n in ViewOf(w).visited ==> ViewOf(w).visited[n] <= Popped(w).depth
  {
    hide ReachedAt, Queued;
    PopDepth(p, w, d);
  }

  lemma StartKeeps(p: Problem, b: Budget)
    ensures Inv(p, Start(p, b), 0)
  {
    var w := Start(p, b);
    assert Examined([]) == {};
    assert Entry(0, 0, p.seed, None) in ViewOf(w).queue;
    assert w.traversed == [] && w.queue == [Entry(0, 0, p.seed, None)];
  }

  /** The invariants hold when the loop ends. */
  lemma {:induction false} RunKeeps(p: Problem, b: Budget, w: State, d: nat) returns (d': nat)
    requires Lawful(p) && Inv(p, w, d)
    ensures Inv(p, Run(p, b, w), d') && !Running(Run(p, b, w))
    decreases WorkLeft(b, w), MayRun(w)
  {
    hide Inv, Lawful, Step;
    if Running(w) {
      StepKeeps(p, b, w, d);
      StepSpends(p, b, w);
      d' := RunKeeps(p, b, Step(p, b, w), Popped(w).depth);
    } else {
      d' := d;
    }
  }
}
