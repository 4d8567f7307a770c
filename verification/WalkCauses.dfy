/** Why a walk stops: every budget hit is the excess of a count that the budget names. */
module WalkCauses {
  import opened Ordering
  import opened GraphModel
  import opened Walk
  import opened WalkCharges

  // ----- The counts, as sets described from outside -----

  ghost predicate ArePaths(members: seq<Member>, paths: set<string>) {
    forall x :: x in paths <==> exists m :: m in members && m.source.path == x
  }

  ghost predicate AreLines(members: seq<Member>, lines: set<(string, int)>) {
    forall x, l :: (x, l) in lines <==>
      exists m :: m in members && m.source.path == x && m.source.startLine <= l && l <= m.source.endLine
  }

  /** The lines of the Python files that the coverage certificate lists. */
  ghost predicate AreDonorLines(p: Problem, lines: set<(string, int)>) {
    forall x, l :: (x, l) in lines <==>
      exists f :: f in p.graph.coverage.files && f.path == x && |x| >= 3 && x[|x| - 3..] == ".py" &&
        f.startLine <= l && l <= f.endLine
  }

  /** These members are too many for the budget: in number, in files, in lines, or in
      their share of the donor's lines. */
  ghost predicate Outgrows(p: Problem, b: Budget, members: seq<Member>) {
    exists paths, lines, donor :: ArePaths(members, paths) && AreLines(members, lines) && AreDonorLines(p, donor) &&
      (|| |members| > Min(b.maxNodes, b.maxSymbols) || |paths| > b.maxFiles || |lines| > b.maxSourceLines
       || donor == {} || 10000 * |lines| > b.maxDonorSourceBps * |donor|)
  }

  /** A count exceeds its limit: configuration, work, examined edges, interfaces, the
      queue, the depth of something deferred, or the members with a deferred node added. */
  ghost predicate Exceeds(p: Problem, b: Budget, w: State) {
    || |p.rules| + |p.pure| + p.adapterEntries > b.maxConfigEntries
    || w.workUnits > b.maxWorkUnits
    || w.edgesExamined > b.maxEdges
    || |w.external| > b.maxExternalInterfaces
    || |w.queue| + 1 > b.maxQueueEntries
    || (exists f :: f in w.frontier && f.depth > b.maxDepth)
    || (exists f, m :: f in w.frontier && Joins(p, f.node, m) && Outgrows(p, b, w.members + [m]))
  }

  /** The member that a node of the graph would make. */
  ghost predicate Joins(p: Problem, n: NodeId, m: Member) {
    && m.node == n && Node(n, Some(m.source)) in p.graph.nodes
    && m.source in p.verification && p.verification[m.source] == Verified(m.digest)
  }

  ghost predicate Caused(p: Problem, b: Budget, w: State) { w.budgetHit ==> Exceeds(p, b, w) }

  // ----- Every stop of the walk -----

  /** Members are counted as the walk counts them. */
  lemma OversizedExactly(p: Problem, b: Budget, members: seq<Member>)
    ensures Oversized(p, b, members) <==> Outgrows(p, b, members)
  {
    assert ArePaths(members, FilesOf(members));
    assert AreLines(members, LinesOf(members));
    assert AreDonorLines(p, DonorLines(p));
    forall paths | ArePaths(members, paths) ensures paths == FilesOf(members) {}
    forall lines | AreLines(members, lines) ensures lines == LinesOf(members) { SamePairs(lines, LinesOf(members)); }
    forall donor | AreDonorLines(p, donor) ensures donor == DonorLines(p) { SamePairs(donor, DonorLines(p)); }
  }

  lemma SamePairs(a: set<(string, int)>, c: set<(string, int)>)
    requires forall x, l :: (x, l) in a <==> (x, l) in c
    ensures a == c
  {
    forall t: (string, int) ensures t in a <==> t in c {
      var (x, l) := t;
      assert (x, l) in a <==> (x, l) in c;
    }
  }

  lemma {:induction false} SourceOfJoins(nodes: seq<Node>, n: NodeId)
    requires SourceOf(nodes, n).Some?
    ensures Node(n, SourceOf(nodes, n)) in nodes
  {
    if nodes[0].id != n { SourceOfJoins(nodes[1..], n); }
  }

  /** What a walk holds only grows while edges are examined, so a cause stays one. */
  ghost predicate Larger(w: State, w': State) {
    && w.workUnits <= w'.workUnits && w.edgesExamined <= w'.edgesExamined && w.external <= w'.external
    && |w.queue| <= |w'.queue| && w.members == w'.members && (forall f :: f in w.frontier ==> f in w'.frontier)
  }

  lemma ExceedsStays(p: Problem, b: Budget, w: State, w': State)
    requires Exceeds(p, b, w) && Larger(w, w')
    ensures Exceeds(p, b, w')
  {
    hide Outgrows, Joins;
    SubsetSize(w.external, w'.external);
  }

  lemma ExamineOneCaused(p: Problem, b: Budget, w: State, d: nat, e: Edge)
    requires Caused(p, b, w)
    ensures Caused(p, b, ExamineOne(p, b, w, d, e))
  {
    hide Classify, SupportAll, Outgrows, Joins;
    var w' := ExamineOne(p, b, w, d, e);
    if e.provenance.binding.Some? {
      SupportAllCharges(p, Record(p, w, d, e), d + 1, e.provenance.binding.value, ImportEdges(p));
      SupportAllCharges(p, Enqueue(Record(p, w, d, e), d, e), d + 1, e.provenance.binding.value, ImportEdges(p));
    }
    assert Larger(w, w');
    if w.budgetHit {
      ExceedsStays(p, b, w, w');
    } else if w'.budgetHit {
      assert w'.frontier[|w.frontier|] == Frontier(d + 1, e.target, Some(e));
    }
  }

  lemma {:induction false} ExamineAllCaused(p: Problem, b: Budget, w: State, d: nat, edges: seq<Edge>)
    requires Caused(p, b, w)
    ensures Caused(p, b, ExamineAll(p, b, w, d, edges))
    decreases |edges|
  {
    hide Caused, ExamineOne;
    if edges != [] {
      ExamineOneCaused(p, b, w, d, edges[0]);
      ExamineAllCaused(p, b, ExamineOne(p, b, w, d, edges[0]), d, edges[1..]);
    }
  }

  lemma {:induction false} VisitAllCaused(
      p: Problem, b: Budget, w: State, at: Frontier, owners: seq<NodeId>, todo: seq<NodeId>)
    requires Caused(p, b, w)
    ensures Caused(p, b, VisitAll(p, b, w, at, owners, todo).0)
    decreases |todo|
  {
    hide UnresolvedOf, Outgrows, Joins;
    if todo != [] && !w.budgetHit {
      var n := todo[0];
      var w1 := VisitOne(p, b, w, at, n);
      var taken := !w1.budgetHit && (n !in w.visited || w.visited[n] > at.depth);
      VisitAllCaused(p, b, w1, at, if taken then owners + [n] else owners, todo[1..]);
    }
  }

  lemma ReachCaused(p: Problem, b: Budget, w: State, at: Frontier)
    requires !w.budgetHit
    ensures Caused(p, b, Reach(p, b, w, at))
  {
    hide VisitAll, ExamineAll, Nested, EdgesOf, Sort, UnresolvedOf, Oversized, Exceeds;
    if Refusal(p, at.node).None? {
      var m := MemberOf(p, at.node);
      if Oversized(p, b, w.members + [m]) {
        DeferredIsOutgrown(p, b, w, at);
      } else {
        var w1 := Admit(p, w, m);
        VisitAllCaused(p, b, w1, at, [at.node], Nested(p, at.node));
        var (w2, owners) := VisitAll(p, b, w1, at, [at.node], Nested(p, at.node));
        ExamineAllCaused(p, b, w2, at.depth, Sort(EdgeLess, EdgesOf(p, owners)));
      }
    }
  }

  lemma DeferredIsOutgrown(p: Problem, b: Budget, w: State, at: Frontier)
    requires Refusal(p, at.node).None? && Oversized(p, b, w.members + [MemberOf(p, at.node)])
    ensures Exceeds(p, b, Defer(w, at))
  {
    hide Oversized, Outgrows;
    var m, w' := MemberOf(p, at.node), Defer(w, at);
    SourceOfJoins(p.graph.nodes, at.node);
    OversizedExactly(p, b, w.members + [m]);
    assert at in w'.frontier && Joins(p, at.node, m) && Outgrows(p, b, w'.members + [m]);
  }

  lemma {:induction false} RunCaused(p: Problem, b: Budget, w: State)
    requires Caused(p, b, w)
    ensures Caused(p, b, Run(p, b, w))
    decreases WorkLeft(b, w), MayRun(w)
  {
    hide Reach, Least, Outgrows, Joins;
    if Running(w) {
      var i := Least(w.queue);
      var e := w.queue[i];
      var at := Frontier(EntryDepth(w.visited, e.incoming), e.node, e.incoming);
      var w1 := w.(queue := RemoveAt(w.queue, i), workUnits := w.workUnits + 1);
      ReachCaused(p, b, w1.(visited := w1.visited[e.node := at.depth]), at);
      StepSpends(p, b, w);
      RunCaused(p, b, Step(p, b, w));
    }
  }

  /** A budget is hit only for cause: some count named by the budget exceeds its limit. */
  lemma StoppedForCause(p: Problem, b: Budget)
    requires b.Valid() && Compute(p, b).walk.budgetHit
    ensures Exceeds(p, b, Compute(p, b).walk)
  {
    hide Run, Outgrows, Joins;
    RunCaused(p, b, Start(p, b));
  }
}
