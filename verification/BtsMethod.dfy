/** The walk as the program runs it: dictionaries built in loops, a work queue,
    and lists extended in place.  Each method is proved equal to the function
    of Walk that specifies it. */
module BtsMethod {
  import opened Ordering
  import opened GraphModel
  import opened OwnerIndex
  import opened Walk
  import WalkCauses
  import WalkVerdict

  // ----- The indexes -----

  type Sources = map<NodeId, Option<SourceRef>>

  ghost predicate SourcesOf(sources: Sources, nodes: seq<Node>) {
    forall n :: (if n in sources then sources[n] else None) == SourceOf(nodes, n)
  }

  lemma {:induction false} SourceOfAppend(nodes: seq<Node>, item: Node, n: NodeId)
    requires forall k :: 0 <= k < |nodes| ==> nodes[k].id != item.id
    ensures SourceOf(nodes + [item], n) == if n == item.id then item.source else SourceOf(nodes, n)
  {
    if nodes == [] {
      assert nodes + [item] == [item] && [item][1..] == [];
    } else {
      assert (nodes + [item])[0] == nodes[0] && (nodes + [item])[1..] == nodes[1..] + [item];
      SourceOfAppend(nodes[1..], item, n);
    }
  }

  method IndexSources(nodes: seq<Node>) returns (sources: Sources)
    requires forall i, j :: 0 <= i < j < |nodes| ==> nodes[i].id != nodes[j].id
    ensures SourcesOf(sources, nodes)
  {
    sources := map[];
    for i := 0 to |nodes|
      invariant SourcesOf(sources, nodes[..i])
    {
      assert nodes[..i + 1] == nodes[..i] + [nodes[i]];
      forall n
        ensures SourceOf(nodes[..i + 1], n) == if n == nodes[i].id then nodes[i].source else SourceOf(nodes[..i], n)
      {
        SourceOfAppend(nodes[..i], nodes[i], n);
      }
      sources := sources[nodes[i].id := nodes[i].source];
    }
    assert nodes[..|nodes|] == nodes;
  }

  method IndexEdges(edges: seq<Edge>) returns (outgoing: map<NodeId, seq<Edge>>, imports: seq<Edge>)
    ensures forall n :: Get(outgoing, n) == OutgoingAmong(edges, n)
    ensures imports == ImportsAmong(edges)
  {
    outgoing, imports := map[], [];
    for i := 0 to |edges|
      invariant forall n :: Get(outgoing, n) == OutgoingAmong(edges[..i], n)
      invariant imports == ImportsAmong(edges[..i])
    {
      var e := edges[i];
      assert edges[..i + 1][..i] == edges[..i];
      if e.kind.Runtime() {
        outgoing := outgoing[e.source := Get(outgoing, e.source) + [e]];
      } else if e.kind.Imports? {
        imports := imports + [e];
      }
    }
    assert edges[..|edges|] == edges;
  }

  method IndexUnresolved(items: seq<UnresolvedEdge>) returns (unresolved: map<NodeId, seq<UnresolvedEdge>>)
    ensures forall n :: Get(unresolved, n) == UnresolvedAmong(items, n)
  {
    unresolved := map[];
    for i := 0 to |items|
      invariant forall n :: Get(unresolved, n) == UnresolvedAmong(items[..i], n)
    {
      var u := items[i];
      assert items[..i + 1][..i] == items[..i];
      if u.kind.Runtime() || u.kind.Imports? {
        unresolved := unresolved[u.source := Get(unresolved, u.source) + [u]];
      }
    }
    assert items[..|items|] == items;
  }

  // ----- Line counting -----

  /** The (path, line) pairs a dictionary of line sets stands for, over some of its keys. */
  function Pairs(lines: map<string, set<int>>, keys: set<string>): set<(string, int)>
    requires keys <= lines.Keys
  {
    set k, l | k in keys && l in lines[k] :: (k, l)
  }

  function Tagged<T>(k: string, ls: set<T>): set<(string, T)> { set l | l in ls :: (k, l) }

  lemma {:induction false} TaggedSize<T>(k: string, ls: set<T>)
    ensures |Tagged(k, ls)| == |ls|
    decreases ls
  {
    if ls != {} {
      var x :| x in ls;
      TaggedSize(k, ls - {x});
      assert Tagged(k, ls) == Tagged(k, ls - {x}) + {(k, x)};
    }
  }

  lemma PairsSplit(lines: map<string, set<int>>, keys: set<string>, k: string)
    requires keys <= lines.Keys && k in keys
    ensures |Pairs(lines, keys)| == |Pairs(lines, keys - {k})| + |lines[k]|
  {
    TaggedSize(k, lines[k]);
    forall j, l ensures (j, l) in Pairs(lines, keys) <==> (j, l) in Pairs(lines, keys - {k}) + Tagged(k, lines[k]) {
      assert (j, l) in Tagged(k, lines[k]) <==> j == k && l in lines[k];
    }
    assert Pairs(lines, keys) == Pairs(lines, keys - {k}) + Tagged(k, lines[k]);
    assert Pairs(lines, keys - {k}) !! Tagged(k, lines[k]);
  }

  method CountLines(lines: map<string, set<int>>) returns (total: nat)
    ensures total == |Pairs(lines, lines.Keys)|
  {
    total := 0;
    var keys := lines.Keys;
    while keys != {}
      invariant keys <= lines.Keys
      invariant total + |Pairs(lines, keys)| == |Pairs(lines, lines.Keys)|
      decreases |keys|
    {
      var k :| k in keys;
      PairsSplit(lines, keys, k);
      total := total + |lines[k]|;
      keys := keys - {k};
    }
    assert Pairs(lines, {}) == {};
  }

  predicate OnLine(source: SourceRef, l: int) { source.startLine <= l <= source.endLine }

  function LineRange(
      source: SourceRef): set<int> { set l | source.startLine <= l <= source.endLine && OnLine(source, l) }

  function AddLines(lines: map<string, set<int>>, source: SourceRef): map<string, set<int>> {
    lines[source.path := (if source.path in lines then lines[source.path] else {}) + LineRange(source)]
  }

  lemma AddLinesPairs(lines: map<string, set<int>>, source: SourceRef, path: string, l: int)
    ensures var more := AddLines(lines, source);
            (path, l) in Pairs(more, more.Keys) <==>
            (path, l) in Pairs(lines, lines.Keys) || (path == source.path && source.startLine <= l <= source.endLine)
  {
    assert OnLine(source, l) <==> l in LineRange(source);
  }

  /** The size of the union of the members' line ranges, file by file. */
  method LineUnion(members: seq<Member>) returns (total: nat)
    ensures total == |LinesOf(members)|
  {
    var lines: map<string, set<int>> := map[];
    for i := 0 to |members|
      invariant Pairs(lines, lines.Keys) == LinesOf(members[..i])
    {
      var m := members[i];
      var more := AddLines(lines, m.source);
      forall path, l ensures (path, l) in Pairs(more, more.Keys) <==> (path, l) in LinesOf(members[..i + 1]) {
        AddLinesPairs(lines, m.source, path, l);
        assert members[..i + 1] == members[..i] + [m];
      }
      lines := more;
    }
    assert members[..|members|] == members;
    total := CountLines(lines);
  }

  ghost function FileLines(files: seq<SourceRef>): set<(string, int)> {
    set f, l | f in files && PythonFile(f.path) && f.startLine <= l <= f.endLine :: (f.path, l)
  }

  method TotalDonorLines(files: seq<SourceRef>) returns (total: nat)
    ensures total == |FileLines(files)|
  {
    var lines: map<string, set<int>> := map[];
    for i := 0 to |files|
      invariant Pairs(lines, lines.Keys) == FileLines(files[..i])
    {
      var f := files[i];
      assert files[..i + 1] == files[..i] + [f];
      if PythonFile(f.path) {
        var more := AddLines(lines, f);
        forall path, l ensures (path, l) in Pairs(more, more.Keys) <==> (path, l) in FileLines(files[..i + 1]) {
          AddLinesPairs(lines, f, path, l);
        }
        lines := more;
      } else {
        assert FileLines(files[..i + 1]) == FileLines(files[..i]);
      }
    }
    assert files[..|files|] == files;
    total := CountLines(lines);
  }

  // ----- The walk -----

  method VisitNestedOwners(
      p: Problem, b: Budget, start: State, at: Frontier, nested: seq<NodeId>,
      unresolved: map<NodeId, seq<UnresolvedEdge>>)
    returns (w: State, owners: seq<NodeId>)
    requires !start.budgetHit
    requires forall n :: Get(unresolved, n) == UnresolvedOf(p, n)
    ensures (w, owners) == VisitAll(p, b, start, at, [at.node], nested)
  {
    hide UnresolvedOf;
    w, owners := start, [at.node];
    var i := 0;
    while i < |nested| && !w.budgetHit
      invariant 0 <= i <= |nested|
      invariant VisitAll(p, b, w, at, owners, nested[i..]) == VisitAll(p, b, start, at, [at.node], nested)
    {
      var n := nested[i];
      assert nested[i..][0] == n && nested[i..][1..] == nested[i + 1..];
      ghost var before, owned := w, owners;
      w := w.(workUnits := w.workUnits + 1);
      if w.workUnits > b.maxWorkUnits {
        w := w.(frontier := w.frontier + [at], budgetHit := true);
      } else if n !in w.visited || w.visited[n] > at.depth {
        var local := Get(unresolved, n);
        owners := owners + [n];
        w := w.(visited := w.visited[n := at.depth], unresolved := w.unresolved + local,
            blockers := w.blockers + AsBlockers(local));
      }
      assert w == VisitOne(p, b, before, at, n);
      i := i + 1;
    }
  }

  method CollectEdges(p: Problem, owners: seq<NodeId>, outgoing: map<NodeId, seq<Edge>>) returns (edges: seq<Edge>)
    requires forall n :: Get(outgoing, n) == Outgoing(p, n)
    ensures edges == EdgesOf(p, owners)
  {
    edges := [];
    for i := 0 to |owners|
      invariant edges == EdgesOf(p, owners[..i])
    {
      assert owners[..i + 1][..i] == owners[..i];
      edges := edges + Get(outgoing, owners[i]);
    }
    assert owners[..|owners|] == owners;
  }

  method SupportImports(p: Problem, start: State, depth: nat, binding: SourceRef, imports: seq<Edge>) returns (w: State)
    ensures w == SupportAll(p, start, depth, binding, imports)
  {
    hide Classify;
    w := start;
    for i := 0 to |imports|
      invariant SupportAll(p, w, depth, binding, imports[i..]) == SupportAll(p, start, depth, binding, imports)
    {
      var imp := imports[i];
      assert imports[i..][0] == imp && imports[i..][1..] == imports[i + 1..];
      if imp.provenance.binding == Some(binding) || imp.provenance.site == binding {
        var ev := Classify(p, imp.target, Some(imp));
        w := w.(workUnits := w.workUnits + 2, dispositions := w.dispositions + [ev],
                traversed := w.traversed + [EdgeEvidence(depth, imp, ev.disposition, ev.ruleId)]);
        if ev.disposition.Reject? {
          w := w.(blockers := w.blockers + [Rejected(ev)]);
        } else if ev.disposition.External? {
          w := w.(external := w.external + {imp.target});
        }
      }
    }
  }

  method ExamineEdge(p: Problem, b: Budget, start: State, depth: nat, e: Edge, imports: seq<Edge>) returns (w: State)
    requires imports == ImportEdges(p)
    ensures w == ExamineOne(p, b, start, depth, e)
  {
    hide Classify, SupportAll;
    var ev := Classify(p, e.target, Some(e));
    w := start.(workUnits := start.workUnits + 2, edgesExamined := start.edgesExamined + 1,
                dispositions := start.dispositions + [ev],
                traversed := start.traversed + [EdgeEvidence(depth + 1, e, ev.disposition, ev.ruleId)]);
    if ev.disposition.Reject? {
      w := w.(blockers := w.blockers + [Rejected(ev)]);
      return;
    }
    if ev.disposition.External? {
      w := w.(external := w.external + {e.target});
    }
    if w.workUnits > b.maxWorkUnits || w.edgesExamined > b.maxEdges || |w.external| > b.maxExternalInterfaces {
      w := w.(frontier := w.frontier + [Frontier(depth + 1, e.target, Some(e))], budgetHit := true);
      return;
    }
    if ev.disposition.Include? {
      if depth + 1 > b.maxDepth || |w.queue| + 1 > b.maxQueueEntries {
        w := w.(frontier := w.frontier + [Frontier(depth + 1, e.target, Some(e))], budgetHit := true);
        return;
      }
      var queue := w.queue + [Entry(depth + 1, w.serial + 1, e.target, Some(e))];
      w := w.(serial := w.serial + 1, queue := queue, workUnits := w.workUnits + 1,
              peakQueue := if |queue| > w.peakQueue then |queue| else w.peakQueue);
    }
    if e.provenance.binding.Some? {
      w := SupportImports(p, w, depth + 1, e.provenance.binding.value, imports);
    }
  }

  method ExamineEdges(
      p: Problem, b: Budget, start: State, depth: nat, edges: seq<Edge>, imports: seq<Edge>)
    returns (w: State)
    requires imports == ImportEdges(p)
    ensures w == ExamineAll(p, b, start, depth, edges)
  {
    hide ExamineOne;
    w := start;
    for i := 0 to |edges|
      invariant ExamineAll(p, b, w, depth, edges[i..]) == ExamineAll(p, b, start, depth, edges)
    {
      assert edges[i..][0] == edges[i] && edges[i..][1..] == edges[i + 1..];
      w := ExamineEdge(p, b, w, depth, edges[i], imports);
    }
  }

  /** The dictionaries the walk consults. */
  datatype Tables = Tables(
    sources: Sources, nested: map<NodeId, seq<NodeId>>, outgoing: map<NodeId, seq<Edge>>, imports: seq<Edge>,
    unresolved: map<NodeId, seq<UnresolvedEdge>>, totalLines: nat)

  ghost predicate TablesOf(p: Problem, t: Tables) {
    && SourcesOf(t.sources, p.graph.nodes)
    && (forall n :: Get(t.nested, n) == NestedOwners(p.graph, n))
    && (forall n :: Get(t.outgoing, n) == Outgoing(p, n))
    && t.imports == ImportEdges(p)
    && (forall n :: Get(t.unresolved, n) == UnresolvedOf(p, n))
    && t.totalLines == |DonorLines(p)|
  }

  method BuildTables(p: Problem) returns (t: Tables)
    requires WellFormed(p.graph)
    ensures TablesOf(p, t)
  {
    var sources := IndexSources(p.graph.nodes);
    var nested := BuildOwnerIndex(p.graph);
    var outgoing, imports := IndexEdges(p.graph.edges);
    var unresolved := IndexUnresolved(p.graph.unresolved);
    var total := TotalDonorLines(p.graph.coverage.files);
    assert FileLines(p.graph.coverage.files) == DonorLines(p);
    t := Tables(sources, nested, outgoing, imports, unresolved, total);
  }

  /** Admit a newly reached node, or record why not. */
  method ReachNode(p: Problem, b: Budget, t: Tables, start: State, at: Frontier) returns (w: State)
    requires TablesOf(p, t) && !start.budgetHit
    ensures w == Reach(p, b, start, at)
  {
    hide VisitAll, ExamineAll, Sort, EdgesOf, NestedOwners, Outgoing, UnresolvedOf, DonorLines, LinesOf, FilesOf;
    var source := if at.node in t.sources then t.sources[at.node] else None;
    assert source == SourceOf(p.graph.nodes, at.node);
    w := start;
    if source.None? {
      var reject := Evidence(at.incoming, at.node, Reject, None, Some(REJECT_PROVENANCE_MISMATCH),
          Some("included_node_missing_source_v1"), None);
      w := w.(dispositions := w.dispositions + [reject], blockers := w.blockers + [Rejected(reject)]);
      return;
    }
    var verification := Verify(p, source.value);
    if verification.Refused? {
      var reject := Evidence(at.incoming, at.node, Reject, None, Some(verification.reason),
          Some(verification.detailCode), None);
      w := w.(dispositions := w.dispositions + [reject], blockers := w.blockers + [Rejected(reject)]);
      return;
    }
    var candidate := Member(at.node, source.value, verification.digest);
    var prospective := w.members + [candidate];
    var lines := LineUnion(prospective);
    var files := |FilesOf(prospective)|;
    var ratioExceeded := t.totalLines <= 0 || lines * 10000 > t.totalLines * b.maxDonorSourceBps;
    if |prospective| > b.maxNodes || |prospective| > b.maxSymbols || files > b.maxFiles || lines > b.maxSourceLines ||
        ratioExceeded {
      w := w.(frontier := w.frontier + [at], budgetHit := true);
      return;
    }
    var local := Get(t.unresolved, at.node);
    w := w.(members := prospective, unresolved := w.unresolved + local, blockers := w.blockers + AsBlockers(local));
    assert w == Admit(p, start, MemberOf(p, at.node));
    var nested := Sort(OwnerLess, Get(t.nested, at.node));
    var owners;
    w, owners := VisitNestedOwners(p, b, w, at, nested, t.unresolved);
    if !w.budgetHit {
      var edges := CollectEdges(p, owners, t.outgoing);
      w := ExamineEdges(p, b, w, at.depth, Sort(EdgeLess, edges), t.imports);
    }
  }

  method WalkGraph(p: Problem, b: Budget, t: Tables) returns (w: State)
    requires TablesOf(p, t)
    ensures w == Run(p, b, Start(p, b))
  {
    hide Reach, Least;
    w := Start(p, b);
    while w.queue != [] && !w.budgetHit
      invariant Run(p, b, w) == Run(p, b, Start(p, b))
      decreases WorkLeft(b, w), MayRun(w)
    {
      ghost var before := w;
      StepSpends(p, b, w);
      var i := Least(w.queue);
      var e := w.queue[i];
      var depth := EntryDepth(w.visited, e.incoming);
      w := w.(queue := w.queue[..i] + w.queue[i + 1..], workUnits := w.workUnits + 1);
      if w.workUnits > b.maxWorkUnits {
        w := w.(queue := w.queue + [Entry(depth, w.serial, e.node, e.incoming)], budgetHit := true);
      } else if !(e.node in w.visited && w.visited[e.node] <= depth) {
        w := w.(visited := w.visited[e.node := depth]);
        w := ReachNode(p, b, t, w, Frontier(depth, e.node, e.incoming));
      }
      assert w == Step(p, b, before);
    }
  }

  /** The verdict of the outcome, read off the graph: a budget is hit only for cause,
      and without one the verdict is that of the graph, the rules and the sources. */
  ghost predicate Told(p: Problem, b: Budget, o: Outcome) {
    if o.walk.budgetHit then WalkCauses.Exceeds(p, b, o.walk)
    else
      && (o.status.RejectStatus? <==> !WalkVerdict.Seeded(p) || WalkVerdict.Dirty(p))
      && (o.status.Complete? <==> WalkVerdict.Seeded(p) && !WalkVerdict.Dirty(p) && WalkVerdict.Covered(p))
  }

  lemma OutcomeTold(p: Problem, b: Budget)
    requires WellFormed(p.graph) && b.Valid()
    ensures Told(p, b, Compute(p, b))
  {
    hide Compute, WellFormed, WalkCauses.Exceeds, WalkVerdict.Seeded, WalkVerdict.Dirty;
    if Compute(p, b).walk.budgetHit {
      WalkCauses.StoppedForCause(p, b);
    } else {
      WalkVerdict.UnstoppedVerdict(p, b);
    }
  }

  /** The whole computation. */
  method ComputeBts(p: Problem, b: Budget) returns (o: Outcome)
    requires WellFormed(p.graph)
    ensures o == Compute(p, b)
    ensures b.Valid() ==> Told(p, b, o)
  {
    hide Run, SeedEvidence, EntryDepth, Certified, WellFormed, Told;
    if b.Valid() { OutcomeTold(p, b); }
    var t := BuildTables(p);
    var seedSource := if p.seed in t.sources then t.sources[p.seed] else None;
    assert seedSource == SourceOf(p.graph.nodes, p.seed);
    if !p.seed.origin.Donor? || !SeedKind(p.seed.kind) || seedSource.None? {
      var ev := SeedEvidence(p, REJECT_UNRESOLVED_EDGE, "invalid_or_ambiguous_seed_v1");
      o := Outcome(RejectStatus, EmptyState().(dispositions := [ev], blockers := [Rejected(ev)]), [], [Rejected(ev)]);
      return;
    }
    var w := WalkGraph(p, b, t);
    var frontier := w.frontier;
    for k := 0 to |w.queue|
      invariant frontier == w.frontier + Leftover(w.visited, w.queue)[..k]
    {
      frontier := frontier +
          [Frontier(EntryDepth(w.visited, w.queue[k].incoming), w.queue[k].node, w.queue[k].incoming)];
    }
    var semanticReject := w.blockers != [];
    var blockers := w.blockers;
    var underCollection := !Certified(p) && !semanticReject;
    if underCollection {
      blockers := blockers +
          [Rejected(SeedEvidence(p, REJECT_UNDER_COLLECTION, "b4_runtime_references_incomplete_v1"))];
    }
    var status := Complete;
    if semanticReject {
      status := RejectStatus;
    } else if w.budgetHit || underCollection {
      status := Partial;
      if w.budgetHit {
        blockers := blockers + [Rejected(SeedEvidence(p, REJECT_BUDGET_EXCEEDED, "bts_walk_budget_v1"))];
      }
    }
    o := Outcome(status, w, frontier, blockers);
  }
}
