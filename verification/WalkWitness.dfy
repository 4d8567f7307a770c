/** A rejection that a larger depth limit hides.

    The function `f` calls the donor function `g` and the standard-library
    function `x`; the import that binds `x` points at an unlisted external `y`.
    With no depth to spare, the call to `g` is deferred at once and the walk
    goes on to the import and rejects.  With one more level of depth, queueing
    `g` costs the one work unit that the import's examination needed, so the
    same graph under a larger budget ends without finding the rejection. */
module WalkWitness {
  import opened Ordering
  import opened GraphModel
  import opened OwnerIndex
  import opened Walk
  import opened WalkInvariant
  import opened WalkMonotone
  import opened WalkCharges
  import SourceSpan

  // Everything lies in one empty file of the donor, whose Git blob and whose
  // span's SHA-256 are those of no bytes.
  const COMMIT := "da39a3ee5e6b4b0d3255bfef95601890afd80709"
  const BLOB := "e69de29bb2d1d6434b8b29ae775ad8c2e48c5391"
  const DIGEST := "sha256:e3b0c44298fc1c149afbf4c8996fb92427ae41e4649b934ca495991b7852b855"

  const SPAN := SourceRef("d", COMMIT, "a.py", BLOB, 1, 0, 1, 0)

  /** The reference is one that the empty file verifies. */
  lemma EmptyFileHasSpan()
    ensures SPAN.Valid() && SourceSpan.Span([], SPAN) == SourceSpan.Ok([])
    ensures |COMMIT| == |BLOB| == 40 && |DIGEST| == 71
  {
    var lines := SourceSpan.Lines([]);
    assert lines == [[]];
    assert SourceSpan.Offset(lines, 0) == 0;
  }

  const F := NodeId(Donor, Function, "m", "f", "1")
  const G := NodeId(Donor, Function, "m", "g", "2")
  const X := NodeId(Stdlib, Function, "m", "x", "3")
  const Y := NodeId(DeclaredExternal, Module, "m", "y", "4")
  const CALL_G := Edge(Calls, F, G, Provenance(SPAN, None, "Call", "r", false))
  const CALL_X := Edge(Calls, F, X, Provenance(SPAN, Some(SPAN), "Call", "r", false))
  const IMPORT_Y := Edge(Imports, F, Y, Provenance(SPAN, None, "Import", "r", false))

  const DONORS := Graph(
    [Node(F, Some(SPAN)), Node(G, Some(SPAN)), Node(X, None), Node(Y, None)],
    [CALL_G, CALL_X, IMPORT_Y], [], Coverage([SPAN], [SPAN]))

  const CASE := Problem(DONORS, F, map[], {("m", "x")}, 0, map[SPAN := Verified(DIGEST)])

  function Limits(depth: nat): Budget { Budget(1, 2, 1, 1, depth, 6, 1, 1, 1, 1, 10000) }

  lemma CallsOrdered()
    ensures EdgeLess(CALL_G, CALL_X)
  {
    hide ProvenanceKey;
    AtomOrder();
    var head := NodeKey(F) + [Text("calls")];
    var kg := NodeKey(G) + ProvenanceKey(CALL_G.provenance);
    var kx := NodeKey(X) + ProvenanceKey(CALL_X.provenance);
    assert EdgeKey(CALL_G) == head + kg && EdgeKey(CALL_X) == head + kx;
    assert kg[0] == Text("donor") && kx[0] == Text("stdlib");
    assert StringLess("donor", "stdlib") by { assert "donor"[0] == 'd' && "stdlib"[0] == 's'; }
    LexCommonPrefix(AtomLess, head, kg, kx);
  }

  lemma CallBeforeImport(call: Edge)
    requires call.kind == Calls && call.source == F
    ensures EdgeLess(call, IMPORT_Y)
  {
    hide ProvenanceKey, NodeKey;
    AtomOrder();
    var a := [Text("calls")] + NodeKey(call.target) + ProvenanceKey(call.provenance);
    var c := [Text("imports")] + NodeKey(Y) + ProvenanceKey(IMPORT_Y.provenance);
    assert EdgeKey(call) == NodeKey(F) + a && EdgeKey(IMPORT_Y) == NodeKey(F) + c;
    assert a[0] == Text("calls") && c[0] == Text("imports");
    assert StringLess("calls", "imports") by { assert "calls"[0] == 'c' && "imports"[0] == 'i'; }
    LexCommonPrefix(AtomLess, NodeKey(F), a, c);
  }

  lemma CaseIsWellFormed()
    ensures WellFormed(DONORS)
  {
    hide EdgeLess;
    CallsOrdered();
    CallBeforeImport(CALL_G);
    CallBeforeImport(CALL_X);
    var n, e := DONORS.nodes, DONORS.edges;
    assert n[0].id == F && n[1].id == G && n[2].id == X && n[3].id == Y;
    assert HasNode(DONORS, F) && HasNode(DONORS, G) && HasNode(DONORS, X) && HasNode(DONORS, Y);
    assert e[0] == CALL_G && e[1] == CALL_X && e[2] == IMPORT_Y;
    forall i, j | 0 <= i < j < |e| ensures EdgeLess(e[i], e[j]) {
      assert (i == 0 && j == 1) || (i == 0 && j == 2) || (i == 1 && j == 2);
    }
    assert forall x :: x in e ==> x == CALL_G || x == CALL_X || x == IMPORT_Y;
  }

  lemma CaseImports()
    ensures ImportEdges(CASE) == [IMPORT_Y]
  {
    var e := DONORS.edges;
    assert e[..2] == [CALL_G, CALL_X] && [CALL_G, CALL_X][..1] == [CALL_G] && [CALL_G][..0] == [];
    assert ImportsAmong([CALL_G]) == [];
    assert ImportsAmong([CALL_G, CALL_X]) == [];
  }

  lemma CaseOutgoing()
    ensures EdgesOf(CASE, [F]) == [CALL_G, CALL_X]
  {
    var e := DONORS.edges;
    assert e[..2] == [CALL_G, CALL_X] && [CALL_G, CALL_X][..1] == [CALL_G] && [CALL_G][..0] == [];
    assert OutgoingAmong([CALL_G], F) == [CALL_G];
    assert OutgoingAmong([CALL_G, CALL_X], F) == [CALL_G, CALL_X];
    assert OutgoingAmong(e, F) == [CALL_G, CALL_X];
    assert [F][..0] == [];
  }

  lemma SortTwo(a: Edge, c: Edge)
    requires EdgeLess(a, c)
    ensures Sort(EdgeLess, [a, c]) == [a, c]
  {
    hide EdgeLess;
    EdgeOrder();
    assert [a, c][1..] == [c] && [c][1..] == [];
    assert Sort(EdgeLess, [c]) == [c];
  }

  lemma CaseNested()
    ensures Nested(CASE, F) == []
  {
    forall c ensures c !in NestedOwners(DONORS, F) { NestedMembers(DONORS, F, c); }
    if Nested(CASE, F) != [] { NestedIsOwned(CASE, F, Nested(CASE, F)[0]); }
  }

  /** The state in which the edges of `f` are examined, the same under every depth limit. */
  function Admitted(): State {
    Start(CASE, Limits(0)).(queue := [], workUnits := 2, visited := map[F := 0], members := [Member(F, SPAN, DIGEST)])
  }

  lemma CaseFits(depth: nat)
    ensures !Oversized(CASE, Limits(depth), [Member(F, SPAN, DIGEST)])
  {
    var m := [Member(F, SPAN, DIGEST)];
    assert LinesOf(m) == {("a.py", 1)};
    assert FilesOf(m) == {"a.py"};
    assert DonorLines(CASE) == {("a.py", 1)} by {
      assert PythonFile("a.py") by { assert "a.py"[1..] == ".py"; }
      assert SPAN in DONORS.coverage.files;
    }
  }

  lemma CaseRuns(depth: nat)
    ensures !Start(CASE, Limits(depth)).budgetHit
    ensures Step(CASE, Limits(depth), Start(CASE, Limits(depth))) ==
            ExamineAll(CASE, Limits(depth), Admitted(), 0, [CALL_G, CALL_X])
  {
    hide Oversized, Nested, EdgesOf, Sort, ExamineAll, UnresolvedOf, Outgoing;
    var b := Limits(depth);
    var w := Start(CASE, b);
    assert ConfigEntries(CASE) == 1;
    assert w.queue == [Entry(0, 0, F, None)] && Least(w.queue) == 0 && RemoveAt(w.queue, 0) == [];
    var w1 := w.(queue := [], workUnits := 2, visited := map[F := 0]);
    assert Refusal(CASE, F).None? && MemberOf(CASE, F) == Member(F, SPAN, DIGEST);
    CaseFits(depth);
    CaseNested();
    CaseOutgoing();
    CallsOrdered();
    SortTwo(CALL_G, CALL_X);
    assert UnresolvedOf(CASE, F) == [] by { NoUnresolved(); }
    assert w1.members + [Member(F, SPAN, DIGEST)] == [Member(F, SPAN, DIGEST)];
    assert AsBlockers([]) == [];
    assert Admit(CASE, w1, Member(F, SPAN, DIGEST)) == Admitted();
    var at := Frontier(0, F, None);
    assert VisitAll(CASE, b, Admitted(), at, [F], []) == (Admitted(), [F]);
    assert Expand(CASE, b, Admitted(), at) == ExamineAll(CASE, b, Admitted(), 0, [CALL_G, CALL_X]);
    assert Reach(CASE, b, w1, at) == Expand(CASE, b, Admitted(), at);
  }

  lemma NoUnresolved()
    ensures UnresolvedOf(CASE, F) == []
  {
  }

  lemma ExamineTwo(p: Problem, b: Budget, w: State, d: nat, a: Edge, c: Edge)
    ensures ExamineAll(p, b, w, d, [a, c]) == ExamineOne(p, b, ExamineOne(p, b, w, d, a), d, c)
  {
    hide ExamineOne;
    assert [a, c][1..] == [c] && [c][1..] == [];
    var w1 := ExamineOne(p, b, w, d, a);
    assert ExamineAll(p, b, w1, d, [c]) == ExamineAll(p, b, ExamineOne(p, b, w1, d, c), d, []);
  }

  lemma SupportSingle(p: Problem, w: State, depth: nat, binding: SourceRef, imp: Edge)
    requires Supports(imp, binding)
    ensures SupportAll(p, w, depth, binding, [imp]) == SupportOne(p, w, depth, imp)
  {
    hide SupportOne;
    assert [imp][1..] == [];
  }

  lemma Classes()
    ensures Classify(CASE, G, Some(CALL_G)).disposition == Include
    ensures Classify(CASE, X, Some(CALL_X)).disposition == External
    ensures Classify(CASE, Y, Some(IMPORT_Y)).disposition == Reject
  {
  }

  lemma ShallowRejects()
    ensures var w := ExamineAll(CASE, Limits(0), Admitted(), 0, [CALL_G, CALL_X]); w.budgetHit && w.blockers != []
  {
    hide ImportEdges, ExamineAll, SupportAll, Classify;
    Classes();
    CaseImports();
    ExamineTwo(CASE, Limits(0), Admitted(), 0, CALL_G, CALL_X);
    var w1 := Defer(Record(CASE, Admitted(), 0, CALL_G), Frontier(1, G, Some(CALL_G)));
    assert ExamineOne(CASE, Limits(0), Admitted(), 0, CALL_G) == w1;
    var w2 := Record(CASE, w1, 0, CALL_X);
    assert w2.workUnits == 6 && w2.edgesExamined == 2 && w2.external == {X};
    assert ExamineOne(CASE, Limits(0), w1, 0, CALL_X) == SupportAll(CASE, w2, 1, SPAN, [IMPORT_Y]);
    SupportSingle(CASE, w2, 1, SPAN, IMPORT_Y);
  }

  lemma DeepDefers()
    ensures var w := ExamineAll(CASE, Limits(1), Admitted(), 0, [CALL_G, CALL_X]); w.budgetHit && w.blockers == []
  {
    hide ImportEdges, ExamineAll, SupportAll, Classify;
    Classes();
    ExamineTwo(CASE, Limits(1), Admitted(), 0, CALL_G, CALL_X);
    var w1 := Enqueue(Record(CASE, Admitted(), 0, CALL_G), 0, CALL_G);
    assert ExamineOne(CASE, Limits(1), Admitted(), 0, CALL_G) == w1;
    var w2 := Record(CASE, w1, 0, CALL_X);
    assert w2.workUnits == 7;
    assert ExamineOne(CASE, Limits(1), w1, 0, CALL_X) == Defer(w2, Frontier(1, X, Some(CALL_X)));
  }

  lemma RunOnce(p: Problem, b: Budget)
    requires ValidSeed(p) && Running(Start(p, b)) && !Running(Step(p, b, Start(p, b)))
    ensures Compute(p, b) == Conclude(p, Step(p, b, Start(p, b)))
  {
    hide Step, ValidSeed, Conclude;
    StepSpends(p, b, Start(p, b));
    RunStopped(p, b, Step(p, b, Start(p, b)));
  }

  /** A larger budget can hide a rejection: raising only the depth limit turns this REJECT into PARTIAL. */
  lemma RejectHiddenByDepth()
    ensures WellFormed(CASE.graph) && Limits(0).Valid() && Limits(1).Valid() && Limits(0).AtMost(Limits(1))
    ensures Compute(CASE, Limits(0)).status.RejectStatus?
    ensures Compute(CASE, Limits(1)).status.Partial?
  {
    hide Step, ExamineAll, Compute, WellFormed;
    CaseIsWellFormed();
    ShallowRejects();
    DeepDefers();
    CaseRuns(0);
    CaseRuns(1);
    assert ValidSeed(CASE);
    RunOnce(CASE, Limits(0));
    RunOnce(CASE, Limits(1));
  }

  // ----- Import support is charged after the last test -----

  const Z := NodeId(Stdlib, Function, "m", "z", "5")
  const IMPORT_Z := Edge(Imports, F, Z, Provenance(SPAN, None, "Import", "r", false))

  const PAIR := Graph([Node(F, Some(SPAN)), Node(X, None), Node(Z, None)], [CALL_X, IMPORT_Z], [],
      Coverage([SPAN], [SPAN]))

  const TIGHT := Problem(PAIR, F, map[], {("m", "x"), ("m", "z")}, 0, map[SPAN := Verified(DIGEST)])

  const TIGHT_LIMITS := Budget(1, 1, 1, 1, 0, 4, 1, 1, 1, 2, 10000)

  lemma TightIsWellFormed()
    ensures WellFormed(PAIR)
  {
    hide EdgeLess;
    ImportBeside();
    var n, e := PAIR.nodes, PAIR.edges;
    assert n[0].id == F && n[1].id == X && n[2].id == Z;
    assert HasNode(PAIR, F) && HasNode(PAIR, X) && HasNode(PAIR, Z);
    assert e[0] == CALL_X && e[1] == IMPORT_Z;
    assert forall x :: x in e ==> x == CALL_X || x == IMPORT_Z;
  }

  lemma ImportBeside()
    ensures EdgeLess(CALL_X, IMPORT_Z)
  {
    hide ProvenanceKey, NodeKey;
    AtomOrder();
    var a := [Text("calls")] + NodeKey(X) + ProvenanceKey(CALL_X.provenance);
    var c := [Text("imports")] + NodeKey(Z) + ProvenanceKey(IMPORT_Z.provenance);
    assert EdgeKey(CALL_X) == NodeKey(F) + a && EdgeKey(IMPORT_Z) == NodeKey(F) + c;
    assert a[0] == Text("calls") && c[0] == Text("imports");
    assert StringLess("calls", "imports") by { assert "calls"[0] == 'c' && "imports"[0] == 'i'; }
    LexCommonPrefix(AtomLess, NodeKey(F), a, c);
  }

  lemma TightViews()
    ensures ImportEdges(TIGHT) == [IMPORT_Z] && EdgesOf(TIGHT, [F]) == [CALL_X] && UnresolvedOf(TIGHT, F) == []
  {
    var e := PAIR.edges;
    assert e[..1] == [CALL_X] && [CALL_X][..0] == [] && [F][..0] == [];
    assert ImportsAmong([CALL_X]) == [];
    assert OutgoingAmong([CALL_X], F) == [CALL_X];
    assert OutgoingAmong(e, F) == [CALL_X];
  }

  lemma TightNested()
    ensures Nested(TIGHT, F) == []
  {
    forall c ensures c !in NestedOwners(PAIR, F) { NestedMembers(PAIR, F, c); }
    if Nested(TIGHT, F) != [] { NestedIsOwned(TIGHT, F, Nested(TIGHT, F)[0]); }
  }

  lemma TightFits()
    ensures !Oversized(TIGHT, TIGHT_LIMITS, [Member(F, SPAN, DIGEST)])
  {
    var m := [Member(F, SPAN, DIGEST)];
    assert LinesOf(m) == {("a.py", 1)};
    assert FilesOf(m) == {"a.py"};
    assert DonorLines(TIGHT) == {("a.py", 1)} by {
      assert PythonFile("a.py") by { assert "a.py"[1..] == ".py"; }
      assert SPAN in PAIR.coverage.files;
    }
  }

  lemma ExamineSingle(p: Problem, b: Budget, w: State, d: nat, e: Edge)
    ensures ExamineAll(p, b, w, d, [e]) == ExamineOne(p, b, w, d, e)
  {
    hide ExamineOne;
    assert [e][1..] == [];
    assert ExamineAll(p, b, ExamineOne(p, b, w, d, e), d, []) == ExamineOne(p, b, w, d, e);
  }

  lemma TightRuns()
    ensures !Start(TIGHT, TIGHT_LIMITS).budgetHit
    ensures Step(TIGHT, TIGHT_LIMITS, Start(TIGHT, TIGHT_LIMITS)) ==
            ExamineOne(TIGHT, TIGHT_LIMITS, Admitted(), 0, CALL_X)
  {
    hide Oversized, Nested, EdgesOf, Sort, ExamineAll, UnresolvedOf, Outgoing, ExamineOne;
    var b := TIGHT_LIMITS;
    var w := Start(TIGHT, b);
    assert ConfigEntries(TIGHT) == 2;
    assert w.queue == [Entry(0, 0, F, None)] && Least(w.queue) == 0 && RemoveAt(w.queue, 0) == [];
    var w1 := w.(queue := [], workUnits := 2, visited := map[F := 0]);
    assert Refusal(TIGHT, F).None? && MemberOf(TIGHT, F) == Member(F, SPAN, DIGEST);
    TightFits();
    TightNested();
    TightViews();
    assert Sort(EdgeLess, [CALL_X]) == [CALL_X] by { SortOne(CALL_X); }
    assert w1.members + [Member(F, SPAN, DIGEST)] == [Member(F, SPAN, DIGEST)];
    assert AsBlockers([]) == [];
    assert Admit(TIGHT, w1, Member(F, SPAN, DIGEST)) == Admitted();
    var at := Frontier(0, F, None);
    assert VisitAll(TIGHT, b, Admitted(), at, [F], []) == (Admitted(), [F]);
    ExamineSingle(TIGHT, b, Admitted(), 0, CALL_X);
    assert Expand(TIGHT, b, Admitted(), at) == ExamineOne(TIGHT, b, Admitted(), 0, CALL_X);
    assert Reach(TIGHT, b, w1, at) == Expand(TIGHT, b, Admitted(), at);
  }

  lemma SortOne(e: Edge)
    ensures Sort(EdgeLess, [e]) == [e]
  {
    assert [e][1..] == [];
  }

  lemma TightExamines()
    ensures var w := ExamineOne(TIGHT, TIGHT_LIMITS, Admitted(), 0, CALL_X);
            w.workUnits == 6 && w.external == {X, Z} && w.queue == [] && w.blockers == [] && !w.budgetHit
  {
    hide ImportEdges, SupportAll, Classify;
    assert Classify(TIGHT, X, Some(CALL_X)).disposition == External &&
           Classify(TIGHT, Z, Some(IMPORT_Z)).disposition == External by {
      TightClasses();
    }
    assert ImportEdges(TIGHT) == [IMPORT_Z] by { TightViews(); }
    var w1 := Record(TIGHT, Admitted(), 0, CALL_X);
    assert w1.workUnits == 4 && w1.edgesExamined == 1 && w1.external == {X};
    assert ExamineOne(TIGHT, TIGHT_LIMITS, Admitted(), 0, CALL_X) == SupportAll(TIGHT, w1, 1, SPAN, [IMPORT_Z]);
    SupportSingle(TIGHT, w1, 1, SPAN, IMPORT_Z);
  }

  lemma TightClasses()
    ensures Classify(TIGHT, X, Some(CALL_X)).disposition == External &&
            Classify(TIGHT, Z, Some(IMPORT_Z)).disposition == External
  {
  }

  /** A complete walk can spend more work units and use more external interfaces
      than its budget allows, by as much as any complete walk can overrun: two
      units, and one interface, for the one import that supports its last edge. */
  lemma CompleteCanOverrun()
    ensures WellFormed(TIGHT.graph) && TIGHT_LIMITS.Valid()
    ensures Compute(TIGHT, TIGHT_LIMITS).status.Complete?
    ensures SupportsOf(TIGHT, CALL_X) == [IMPORT_Z]
    ensures Compute(TIGHT, TIGHT_LIMITS).walk.workUnits == TIGHT_LIMITS.maxWorkUnits + 2 * |SupportsOf(TIGHT, CALL_X)|
    ensures |Compute(TIGHT, TIGHT_LIMITS).walk.external| ==
            TIGHT_LIMITS.maxExternalInterfaces + |SupportsOf(TIGHT, CALL_X)|
  {
    hide Step, ExamineOne, Compute, WellFormed, ImportEdges, SupportsOf;
    TightIsWellFormed();
    TightRuns();
    TightExamines();
    TightSupports();
    assert ValidSeed(TIGHT);
    RunOnce(TIGHT, TIGHT_LIMITS);
    var w := Step(TIGHT, TIGHT_LIMITS, Start(TIGHT, TIGHT_LIMITS));
    assert Certified(TIGHT) && Leftover(w.visited, w.queue) == [];
  }

  lemma TightSupports()
    ensures SupportsOf(TIGHT, CALL_X) == [IMPORT_Z]
  {
    hide ImportEdges;
    TightViews();
    assert [IMPORT_Z][1..] == [] && SupportsAmong([], SPAN) == [];
  }
}
