/** Which nodes become members, in terms of the graph alone.

    A node nested in a member is visited with it, and does not become a member
    of its own unless the walk takes it up first. Since the walk takes nodes up
    by distance and then by key, that can be read off the graph: a node is chosen
    if an edge enters it at its own distance and no definition around it, entered
    at the same distance, comes before it. */
module WalkMembers {
  import opened Ordering
  import opened GraphModel
  import opened Walk
  import opened WalkInvariant
  import opened WalkCharges
  import opened WalkPreserves
  import opened WalkBudgets
  import opened WalkTheorems
  import opened WalkMonotone

  // ----- Distance, entry and choice -----

  ghost predicate AtDistance(p: Problem, n: NodeId, k: nat) {
    ReachedAt(p, n, k) && forall hops :: Chain(p, hops, n) ==> k <= Cost(hops)
  }

  ghost predicate EntersBy(p: Problem, e: Edge, n: NodeId, k: nat) {
    Follow(e).Legal(p) && e.target == n && k >= 1 && AtDistance(p, e.source, k - 1)
  }

  /** The walk queues `n` at depth `k`. */
  ghost predicate Entered(p: Problem, n: NodeId, k: nat) {
    (n == p.seed && k == 0) || exists e :: EntersBy(p, e, n, k)
  }

  /** A definition around `n` that the walk takes up at the same distance, before `n`. */
  ghost predicate Shadows(p: Problem, m: NodeId, n: NodeId, k: nat) {
    Into(m, n).Legal(p) && AtDistance(p, m, k) && Entered(p, m, k) && NodeLess(m, n)
  }

  ghost predicate ChosenAt(p: Problem, n: NodeId, k: nat) {
    AtDistance(p, n, k) && Entered(p, n, k) && forall m :: !Shadows(p, m, n, k)
  }

  ghost predicate Chosen(p: Problem, n: NodeId) { exists k :: ChosenAt(p, n, k) }

  lemma OneDistance(p: Problem, n: NodeId, j: nat, k: nat)
    requires AtDistance(p, n, j) && AtDistance(p, n, k)
    ensures j == k
  {
    hide Chain, Cost;
    var hops :| Chain(p, hops, n) && Cost(hops) == j;
    var hops' :| Chain(p, hops', n) && Cost(hops') == k;
  }

  // ----- A calm walk, at any moment -----

  /** Every chain has been followed to its end, or to an entry still queued that costs no more. */
  lemma {:induction false} ChainMet(p: Problem, v: View, hops: seq<Hop>, n: NodeId)
    requires Calm(p, v) && Chain(p, hops, n)
    ensures (n in v.visited && v.visited[n] <= Cost(hops)) || exists q :: q in v.queue && q.depth <= Cost(hops)
    decreases |hops|
  {
    hide Kept, Lawful, Nested, Outgoing, Includes;
    if hops == [] {
      assert SeedHeld(p, v) by { CalmSeed(p, v); }
    } else {
      var last := hops[|hops| - 1];
      ChainMet(p, v, hops[..|hops| - 1], last.From());
      LegalExactly(p, last);
      if last.From() in v.visited {
        match last
        case Into(a, c) => CalmNested(p, v, a, c);
        case Follow(e) => CalmEdge(p, v, e.source, e);
      }
    }
  }

  lemma CalmSeed(p: Problem, v: View)
    requires Calm(p, v)
    ensures SeedHeld(p, v)
  {
    hide Nested, Outgoing, UnresolvedOf, Accounted, Followed, Deferred, NodeRejected, Lawful, SeedHeld;
  }

  /** So what is visited is visited at its distance, which is what it keeps. */
  lemma VisitedAtDistance(p: Problem, v: View, d: nat, n: NodeId)
    requires Calm(p, v) && Depths(p, v, d) && n in v.visited
    ensures AtDistance(p, n, v.visited[n])
  {
    hide Calm, Chain, Cost, Queued;
    forall hops | Chain(p, hops, n) ensures v.visited[n] <= Cost(hops) { ChainMet(p, v, hops, n); }
  }

  /** The least entry of the queue is about to be taken up. */
  ghost predicate Foremost(p: Problem, v: View, d: nat, q: Entry) {
    && Calm(p, v) && Depths(p, v, d) && q in v.queue && q.node !in v.visited
    && (forall x :: x in v.queue ==> q.depth <= x.depth)
    && (forall x :: x in v.queue && x.depth == q.depth ==> !NodeLess(x.node, q.node))
  }

  /** Whatever is entered at the depth of the foremost entry has been visited, or is queued there. */
  lemma EntryWaits(p: Problem, v: View, d: nat, q: Entry, m: NodeId)
    requires Foremost(p, v, d, q) && Entered(p, m, q.depth) && m !in v.visited
    ensures !NodeLess(m, q.node)
  {
    hide Calm, Chain, Cost, Queued, Nested, Outgoing, Includes, NodeLess;
    if m == p.seed && q.depth == 0 {
      assert SeedHeld(p, v) by { CalmSeed(p, v); }
    } else {
      var e :| EntersBy(p, e, m, q.depth);
      LegalExactly(p, Follow(e));
      var hops :| Chain(p, hops, e.source) && Cost(hops) == q.depth - 1;
      ChainMet(p, v, hops, e.source);
      VisitedAtDistance(p, v, d, e.source);
      OneDistance(p, e.source, q.depth - 1, v.visited[e.source]);
      CalmEdge(p, v, e.source, e);
      NoFrontier(p, v, e);
    }
  }

  lemma NoFrontier(p: Problem, v: View, e: Edge)
    requires Calm(p, v) && Followed(v, e) && e.target !in v.visited
    ensures exists x :: x in v.queue && x.node == e.target && x.depth == v.visited[e.source] + 1
  {
    hide Kept, Lawful;
  }

  /** The node taken up next is chosen. */
  lemma ForemostIsChosen(p: Problem, v: View, d: nat, q: Entry)
    requires Foremost(p, v, d, q)
    ensures ChosenAt(p, q.node, q.depth)
  {
    hide Calm, Chain, Cost, Nested, Outgoing, Includes, NodeLess;
    QueuedReached(p, v, d, q);
    forall hops | Chain(p, hops, q.node) ensures q.depth <= Cost(hops) { ChainMet(p, v, hops, q.node); }
    if q.incoming.Some? {
      var e := q.incoming.value;
      VisitedAtDistance(p, v, d, e.source);
      LegalExactly(p, Follow(e));
      assert EntersBy(p, e, q.node, q.depth);
    }
    forall m ensures !Shadows(p, m, q.node, q.depth) {
      if Shadows(p, m, q.node, q.depth) {
        LegalExactly(p, Into(m, q.node));
        if m in v.visited { CalmNested(p, v, m, q.node); } else { EntryWaits(p, v, d, q, m); }
      }
    }
  }

  /** A definition nested in it that is entered at the same depth comes after it. */
  lemma NestedComesLater(p: Problem, v: View, d: nat, q: Entry, c: NodeId)
    requires Foremost(p, v, d, q) && c !in v.visited && c != q.node && Entered(p, c, q.depth)
    ensures NodeLess(q.node, c)
  {
    hide Foremost, Entered, NodeLess;
    EntryWaits(p, v, d, q, c);
    NodeOrder();
  }

  lemma NodeDecides(x: Entry, q: Entry)
    requires x.depth == q.depth && NodeLess(x.node, q.node)
    ensures EntryLess(x, q)
  {
    hide NodeKey, IncomingKey;
    AtomOrder();
    var rx, rq := IncomingKey(x.incoming) + [Num(x.serial)], IncomingKey(q.incoming) + [Num(q.serial)];
    LexExtends(AtomLess, NodeKey(x.node), NodeKey(q.node), rx, rq);
    LexCommonPrefix(AtomLess, [Num(x.depth)], NodeKey(x.node) + rx, NodeKey(q.node) + rq);
    assert EntryKey(x) == [Num(x.depth)] + (NodeKey(x.node) + rx);
    assert EntryKey(q) == [Num(q.depth)] + (NodeKey(q.node) + rq);
  }

  /** Among entries of one depth the heap yields the least node. */
  lemma PoppedIsFirst(w: State, x: Entry)
    requires w.queue != [] && x in w.queue && x.depth == Popped(w).depth
    ensures !NodeLess(x.node, Popped(w).node)
  {
    hide NodeLess, EntryLess, Least;
    var k :| 0 <= k < |w.queue| && w.queue[k] == x;
    LeastIsMinimal(w.queue, k);
    if NodeLess(x.node, Popped(w).node) { NodeDecides(x, Popped(w)); }
  }

  lemma PoppedIsForemost(p: Problem, w: State, d: nat)
    requires Lawful(p) && Inv(p, w, d) && w.queue != [] && Popped(w).node !in w.visited
    requires w.blockers == [] && w.frontier == []
    ensures Foremost(p, ViewOf(w), d, Popped(w))
  {
    hide Lawful, Kept, Least, NodeLess, Queued;
    PopDepth(p, w, d);
    PoppedQueued(w);
    forall x | x in ViewOf(w).queue && x.depth == Popped(w).depth ensures !NodeLess(x.node, Popped(w).node) {
      PoppedIsFirst(w, x);
    }
  }

  // ----- What one iteration adds -----

  /** The visited nodes of `w'` are those of `w`, with `n` and what is nested in it added at depth `k`. */
  ghost predicate TakesUp(p: Problem, w: State, w': State, n: NodeId, k: nat) {
    && (forall x :: x in w'.visited <==> x in w.visited || x == n || x in Nested(p, n))
    && (forall x :: x in w'.visited ==> w'.visited[x] == if x in w.visited then w.visited[x] else k)
  }

  lemma ExpandTakes(p: Problem, b: Budget, w: State, at: Frontier)
    requires at.node in w.visited && (forall n :: n in w.visited ==> w.visited[n] <= at.depth)
    requires !Expand(p, b, w, at).budgetHit
    ensures TakesUp(p, w, Expand(p, b, w, at), at.node, at.depth) && Expand(p, b, w, at).members == w.members
  {
    hide VisitAll, ExamineAll, Nested, EdgesOf, Sort;
    var (w1, owners) := VisitAll(p, b, w, at, [at.node], Nested(p, at.node));
    VisitAllFrame(p, b, w, at, [at.node], Nested(p, at.node));
    if !w1.budgetHit {
      VisitAllTakes(p, b, w, at, [at.node], Nested(p, at.node));
      ExamineAllFrame(p, b, w1, at.depth, Sort(EdgeLess, EdgesOf(p, owners)));
    }
  }

  /** An iteration that ends without hitting a budget or blocking, on a node not
      yet visited, makes it a member and visits what is nested in it. */
  lemma StepAdmits(p: Problem, b: Budget, w: State, d: nat)
    requires Lawful(p) && Inv(p, w, d) && Running(w) && Popped(w).node !in w.visited
    requires !Step(p, b, w).budgetHit && Step(p, b, w).blockers == []
    ensures var w', q := Step(p, b, w), Popped(w);
            && Refusal(p, q.node).None? && w'.members == w.members + [MemberOf(p, q.node)]
            && TakesUp(p, w, w', q.node, q.depth)
  {
    hide Lawful, Inv, Least, Oversized, Refusal, Expand, Nested, UnresolvedOf;
    var q := Popped(w);
    StepKeeps(p, b, w, d);
    assert forall n :: n in w.visited ==> w.visited[n] <= q.depth by { InvBelow(p, w, d); }
    var w1 := Rest(w).(visited := w.visited[q.node := q.depth]);
    if Refusal(p, q.node).None? {
      var w2, at := Admit(p, w1, MemberOf(p, q.node)), Frontier(q.depth, q.node, q.incoming);
      if !Expand(p, b, w2, at).budgetHit { ExpandTakes(p, b, w2, at); }
    }
  }

  lemma InvBelow(p: Problem, w: State, d: nat)
    requires Inv(p, w, d) && w.queue != []
    ensures forall n :: n in w.visited ==> w.visited[n] <= Popped(w).depth
  {
    hide Kept, Tally, Depths;
    VisitedBelow(p, w, d);
    ViewFields(w);
  }

  lemma StepSkips(p: Problem, b: Budget, w: State, d: nat)
    requires Lawful(p) && Inv(p, w, d) && Running(w) && Popped(w).node in w.visited
    ensures Step(p, b, w).members == w.members && Step(p, b, w).visited == w.visited
    ensures !Step(p, b, w).budgetHit ==> Step(p, b, w) == Rest(w)
  {
    hide Lawful, Inv, Least, Reach;
    StepKeeps(p, b, w, d);
  }

  // ----- Members are the chosen nodes -----

  /** A member that accounts for a visited node which is none, having come before it if it is entered at all. */
  ghost predicate Stands(p: Problem, w: State, m: NodeId, n: NodeId) {
    && m in ViewOf(w).members && n in Nested(p, m) && SameDepth(ViewOf(w), m, n)
    && (NodeLess(m, n) || !Entered(p, n, w.visited[n]))
  }

  ghost predicate ChosenSoFar(p: Problem, w: State) {
    !w.budgetHit && w.blockers == [] ==>
      && (forall n :: n in ViewOf(w).members ==> Chosen(p, n))
      && (forall n :: n in w.visited ==> n in ViewOf(w).members || exists m :: Stands(p, w, m, n))
  }

  lemma StepChooses(p: Problem, b: Budget, w: State, d: nat)
    requires Lawful(p) && Inv(p, w, d) && Running(w) && w.frontier == [] && ChosenSoFar(p, w)
    ensures ChosenSoFar(p, Step(p, b, w))
  {
    hide Lawful, Inv, Least, Step, Nested, Chosen, Stands;
    var w', q := Step(p, b, w), Popped(w);
    if !w'.budgetHit && w'.blockers == [] {
      NoBlockersBefore(p, b, w);
      if q.node in w.visited { SkipChooses(p, b, w, d); } else { AdmitChooses(p, b, w, d); }
    }
  }

  lemma SkipChooses(p: Problem, b: Budget, w: State, d: nat)
    requires Lawful(p) && Inv(p, w, d) && Running(w) && w.frontier == [] && ChosenSoFar(p, w) && w.blockers == []
    requires Popped(w).node in w.visited
    ensures ChosenSoFar(p, Step(p, b, w))
  {
    hide Lawful, Inv, Least, Step, Nested, Chosen, Entered, NodeLess;
    var w' := Step(p, b, w);
    StepSkips(p, b, w, d);
    forall n | n in w'.visited && n !in ViewOf(w').members ensures exists m :: Stands(p, w', m, n) {
      var m :| Stands(p, w, m, n);
      assert Stands(p, w', m, n);
    }
  }

  lemma AdmitChooses(p: Problem, b: Budget, w: State, d: nat)
    requires Lawful(p) && Inv(p, w, d) && Running(w) && w.frontier == [] && ChosenSoFar(p, w) && w.blockers == []
    requires Popped(w).node !in w.visited && !Step(p, b, w).budgetHit && Step(p, b, w).blockers == []
    ensures ChosenSoFar(p, Step(p, b, w))
  {
    hide Lawful, Inv, Least, Step, Nested, Chosen, ChosenAt, Entered, NodeLess;
    var w', q := Step(p, b, w), Popped(w);
    StepAdmits(p, b, w, d);
    PoppedIsForemost(p, w, d);
    MembersAppend(w, w', MemberOf(p, q.node));
    ForemostIsChosen(p, ViewOf(w), d, q);
    assert Chosen(p, q.node) by { IsChosen(p, q.node, q.depth); }
    forall n | n in w'.visited && n !in ViewOf(w').members ensures exists m :: Stands(p, w', m, n) {
      if n in w.visited {
        var m :| Stands(p, w, m, n);
        assert Stands(p, w', m, n);
      } else {
        if Entered(p, n, q.depth) { NestedComesLater(p, ViewOf(w), d, q, n); }
        assert Stands(p, w', q.node, n);
      }
    }
  }

  lemma IsChosen(p: Problem, n: NodeId, k: nat)
    requires ChosenAt(p, n, k)
    ensures Chosen(p, n)
  {
  }

  lemma NoBlockersBefore(p: Problem, b: Budget, w: State)
    requires Running(w) && Step(p, b, w).blockers == []
    ensures w.blockers == []
  {
    hide Step, Subsumed;
    StepGrows(p, b, w);
    SubsumedByNone(w.blockers, Step(p, b, w).blockers);
  }

  lemma SubsumedByNone(a: seq<Blocker>, c: seq<Blocker>)
    requires Subsumed(a, c)
    ensures a == [] || c != []
  {
    if a != [] { assert a[0] in a; }
  }

  lemma MembersAppend(w: State, w': State, m: Member)
    requires w'.members == w.members + [m]
    ensures ViewOf(w').members == ViewOf(w).members + {m.node}
  {
    assert m in w'.members;
    forall x ensures x in ViewOf(w').members <==> x in ViewOf(w).members + {m.node} {
      if x in ViewOf(w).members {
        var y :| y in w.members && y.node == x;
        assert y in w'.members;
      }
    }
  }

  lemma {:induction false} RunChooses(p: Problem, b: Budget, w: State, d: nat)
    requires Lawful(p) && Inv(p, w, d) && Bounded(p, b, w) && Frugal(p, b, w) && ChosenSoFar(p, w)
    ensures ChosenSoFar(p, Run(p, b, w))
    decreases WorkLeft(b, w), MayRun(w)
  {
    hide Lawful, Inv, Step, Frugal, ChosenSoFar, Oversized;
    if Running(w) {
      StepChooses(p, b, w, d);
      StepKeeps(p, b, w, d);
      StepWithin(p, b, w, d);
      StepSpends(p, b, w);
      RunChooses(p, b, Step(p, b, w), Popped(w).depth);
    }
  }

  /** A walk that ran to its end unblocked. */
  ghost predicate Finished(p: Problem, b: Budget) {
    ValidSeed(p) && !Compute(p, b).walk.budgetHit && Compute(p, b).walk.blockers == []
  }

  lemma FinishedFacts(p: Problem, b: Budget) returns (d: nat)
    requires WellFormed(p.graph) && b.Valid() && Finished(p, b)
    ensures var w := Compute(p, b).walk;
            && w == Run(p, b, Start(p, b)) && Lawful(p) && Inv(p, w, d) && Quiet(p, ViewOf(w)) && w.queue == []
            && Settled(p, ViewOf(w)) && ChosenSoFar(p, w)
  {
    hide Run, Lawful, Depths, Kept, Tally, Frugal, Oversized, Settled, ChosenSoFar;
    WellFormedIsLawful(p);
    StartKeeps(p, b);
    StartWithin(p, b);
    d := RunKeeps(p, b, Start(p, b), 0);
    RunWithin(p, b, Start(p, b), 0);
    assert ChosenSoFar(p, Start(p, b)) by { StartChooses(p, b); }
    RunChooses(p, b, Start(p, b), 0);
    KeptSettles(p, ViewOf(Compute(p, b).walk));
  }

  lemma StartChooses(p: Problem, b: Budget)
    ensures ChosenSoFar(p, Start(p, b))
  {
  }

  /** The member that stands for an entered node shadows it. */
  lemma StandsShadows(p: Problem, w: State, d: nat, m: NodeId, n: NodeId, k: nat)
    requires Calm(p, ViewOf(w)) && Depths(p, ViewOf(w), d) && Stands(p, w, m, n) && Chosen(p, m)
    requires AtDistance(p, n, k) && Entered(p, n, k)
    ensures Shadows(p, m, n, k)
  {
    hide Calm, Depths, AtDistance, NodeLess, Nested, Entered;
    var v := ViewOf(w);
    LegalExactly(p, Into(m, n));
    VisitedAtDistance(p, v, d, n);
    OneDistance(p, n, k, v.visited[n]);
    var j :| ChosenAt(p, m, j);
    VisitedAtDistance(p, v, d, m);
    OneDistance(p, m, j, v.visited[m]);
  }

  lemma ChosenIsMember(p: Problem, w: State, d: nat, n: NodeId)
    requires Calm(p, ViewOf(w)) && Depths(p, ViewOf(w), d) && ChosenSoFar(p, w) && !w.budgetHit && w.blockers == []
    requires Chosen(p, n) && n in w.visited
    ensures n in ViewOf(w).members
  {
    hide Calm, Depths, AtDistance, Shadows, Entered;
    var k :| ChosenAt(p, n, k);
    if n !in ViewOf(w).members {
      var m :| Stands(p, w, m, n);
      StandsShadows(p, w, d, m, n, k);
    }
  }

  lemma ChosenIsVisited(p: Problem, v: View, n: NodeId)
    requires Settled(p, v) && Chosen(p, n)
    ensures n in v.visited
  {
    hide Settled, Chain, Cost, Entered, Shadows;
    var k :| ChosenAt(p, n, k);
    var hops :| Chain(p, hops, n) && Cost(hops) == k;
    SettledBound(p, v, hops, n);
  }

  /** The members of a walk that runs to its end are exactly the nodes the graph chooses. */
  lemma MembersExactly(p: Problem, b: Budget, n: NodeId)
    requires WellFormed(p.graph) && b.Valid() && Finished(p, b)
    ensures n in ViewOf(Compute(p, b).walk).members <==> Chosen(p, n)
  {
    hide WellFormed, Compute, Kept, Lawful, Tally, Depths, Chosen, Quiet, Settled, Stands;
    var d := FinishedFacts(p, b);
    var w := Compute(p, b).walk;
    QuietIsCalm(p, ViewOf(w));
    if Chosen(p, n) {
      ChosenIsVisited(p, ViewOf(w), n);
      ChosenIsMember(p, w, d, n);
    }
  }

  lemma QuietIsCalm(p: Problem, v: View)
    requires Quiet(p, v)
    ensures Calm(p, v)
  {
  }
}
