/** The Behavioral Transplant Set walk as a state machine.

    `Step` is one iteration of the walk's loop, `Run` the whole loop and
    `Conclude` the verdict.  The imperative walk in BtsMethod is proved equal
    to these functions; everything promised about the walk is proved of them. */
module Walk {
  import opened Ordering
  import opened GraphModel
  import opened OwnerIndex

  // ----- Policy and evidence -----

  datatype Disposition = Include | MapTo | Adapt | Replace | External | Reject

  datatype Payload =
    | MapRule(target: NodeId, targetIdentity: string)
    | AdaptRule(adapterId: string, parameters: seq<(string, string)>)
    | ReplaceRule(target: NodeId, targetIdentity: string)
    | ExternalRule(requirement: string)
    | RejectRule(reason: string, detailCode: string)
  {
    /** A rule's disposition is fixed by its payload; no payload stands for inclusion. */
    function Disposition(): Disposition {
      match this
      case MapRule(_, _) => MapTo
      case AdaptRule(_, _) => Adapt
      case ReplaceRule(_, _) => Replace
      case ExternalRule(_) => External
      case RejectRule(_, _) => Reject
    }
  }

  datatype Rule = Rule(ruleId: string, payload: Payload)

  datatype Evidence = Evidence(
    edge: Option<Edge>, target: NodeId, disposition: Disposition, ruleId: Option<string>,
    reason: Option<string>, detailCode: Option<string>, payload: Option<Payload>)

  datatype Member = Member(node: NodeId, source: SourceRef, digest: string)

  datatype EdgeEvidence = EdgeEvidence(depth: nat, edge: Edge, disposition: Disposition, ruleId: Option<string>)

  datatype Frontier = Frontier(depth: nat, node: NodeId, incoming: Option<Edge>)

  datatype Blocker = Unresolved(edge: UnresolvedEdge) | Rejected(evidence: Evidence)

  /** What re-reading a donor span yields: its digest, or a typed refusal. */
  datatype Verification = Verified(digest: string) | Refused(reason: string, detailCode: string)

  datatype Problem = Problem(
    graph: Graph, seed: NodeId, rules: map<NodeId, Rule>, pure: set<(string, string)>, adapterEntries: nat,
    verification: map<SourceRef, Verification>)

  datatype Budget = Budget(
    maxFiles: nat, maxEdges: nat, maxNodes: nat, maxQueueEntries: nat, maxDepth: nat, maxWorkUnits: nat,
    maxSymbols: nat, maxSourceLines: nat, maxExternalInterfaces: nat, maxConfigEntries: nat, maxDonorSourceBps: nat)
  {
    predicate Valid() {
      && 1 <= maxFiles && 1 <= maxEdges && 1 <= maxNodes && 1 <= maxQueueEntries && 1 <= maxWorkUnits
      && 1 <= maxSymbols && 1 <= maxSourceLines && 1 <= maxExternalInterfaces && 1 <= maxConfigEntries
      && maxDonorSourceBps <= 10000
    }

    predicate AtMost(other: Budget) {
      && maxFiles <= other.maxFiles && maxEdges <= other.maxEdges && maxNodes <= other.maxNodes
      && maxQueueEntries <= other.maxQueueEntries && maxDepth <= other.maxDepth && maxWorkUnits <= other.maxWorkUnits
      && maxSymbols <= other.maxSymbols && maxSourceLines <= other.maxSourceLines
      && maxExternalInterfaces <= other.maxExternalInterfaces && maxConfigEntries <= other.maxConfigEntries
      && maxDonorSourceBps <= other.maxDonorSourceBps
    }
  }

  // ----- Graph views -----

  function SourceOf(nodes: seq<Node>, n: NodeId): Option<SourceRef> {
    if nodes == [] then None
    else if nodes[0].id == n then nodes[0].source
    else SourceOf(nodes[1..], n)
  }

  function OutgoingAmong(edges: seq<Edge>, n: NodeId): seq<Edge> {
    if edges == [] then []
    else
      var front := OutgoingAmong(edges[..|edges| - 1], n);
      var e := edges[|edges| - 1];
      if e.kind.Runtime() && e.source == n then front + [e] else front
  }

  /** The runtime edges a node owns. */
  function Outgoing(p: Problem, n: NodeId): seq<Edge> { OutgoingAmong(p.graph.edges, n) }

  function ImportsAmong(edges: seq<Edge>): seq<Edge> {
    if edges == [] then []
    else
      var front := ImportsAmong(edges[..|edges| - 1]);
      var e := edges[|edges| - 1];
      if e.kind.Imports? then front + [e] else front
  }

  function ImportEdges(p: Problem): seq<Edge> { ImportsAmong(p.graph.edges) }

  function UnresolvedAmong(items: seq<UnresolvedEdge>, n: NodeId): seq<UnresolvedEdge> {
    if items == [] then []
    else
      var front := UnresolvedAmong(items[..|items| - 1], n);
      var u := items[|items| - 1];
      if (u.kind.Runtime() || u.kind.Imports?) && u.source == n then front + [u] else front
  }

  function UnresolvedOf(p: Problem, n: NodeId): seq<UnresolvedEdge> { UnresolvedAmong(p.graph.unresolved, n) }

  function OwnerKey(n: NodeId): Key {
    [Text(n.origin.Value()), Text(n.mod), Text(n.qualifiedName), Text(n.kind.Value()), Text(n.locationKey)]
  }

  predicate OwnerLess(a: NodeId, b: NodeId) { KeyLess(OwnerKey(a), OwnerKey(b)) }

  /** Owners compare by origin, module, name, kind and location: the first that differs decides. */
  lemma OwnerFieldsDecide(a: NodeId, b: NodeId)
    ensures OwnerLess(a, b) <==>
            if a.origin != b.origin then StringLess(a.origin.Value(), b.origin.Value())
            else if a.mod != b.mod then StringLess(a.mod, b.mod)
            else if a.qualifiedName != b.qualifiedName then StringLess(a.qualifiedName, b.qualifiedName)
            else if a.kind != b.kind then StringLess(a.kind.Value(), b.kind.Value())
            else StringLess(a.locationKey, b.locationKey)
  {
    hide NodeOrigin.Value, NodeKind.Value, StringLess, KeyLess;
    if a.origin.Value() == b.origin.Value() { OriginValueInjective(a.origin, b.origin); }
    if a.kind.Value() == b.kind.Value() { KindValueInjective(a.kind, b.kind); }
    var k, l := OwnerKey(a), OwnerKey(b);
    assert k[0..] == k && l[0..] == l;
    DecidesAt(k, l, 0);
    FourDecide(k[1..], l[1..]);
  }

  /** The owners nested in `n`, in the order the walk takes them. */
  function Nested(p: Problem, n: NodeId): seq<NodeId> { Sort(OwnerLess, NestedOwners(p.graph, n)) }

  function ConfigEntries(p: Problem): nat { |p.rules| + |p.pure| + p.adapterEntries }

  function LinesOf(members: seq<Member>): set<(string, int)> {
    set m, l | m in members && m.source.startLine <= l <= m.source.endLine :: (m.source.path, l)
  }

  function FilesOf(members: seq<Member>): set<string> { set m | m in members :: m.source.path }

  predicate PythonFile(path: string) { |path| >= 3 && path[|path| - 3..] == ".py" }

  function DonorLines(p: Problem): set<(string, int)> {
    set f, l | f in p.graph.coverage.files && PythonFile(f.path) && f.startLine <= l <= f.endLine :: (f.path, l)
  }

  // ----- Classification -----

  const REJECT_UNRESOLVED_EDGE := "reject_unresolved_edge"
  const REJECT_PROVENANCE_MISMATCH := "reject_provenance_mismatch"
  const REJECT_UNDER_COLLECTION := "reject_under_collection"
  const REJECT_BUDGET_EXCEEDED := "reject_budget_exceeded"

  /** What the walk takes along and follows: a donor node that no rule names. */
  predicate Includes(p: Problem, n: NodeId) { n.origin == Donor && n !in p.rules }

  /** What it leaves outside and relies on: a node with an external rule, or an
      unruled standard library function that the catalog lists as pure. */
  predicate Assumes(p: Problem, n: NodeId) {
    || (n in p.rules && p.rules[n].payload.ExternalRule?)
    || (n !in p.rules && n.origin == Stdlib && (n.mod, n.qualifiedName) in p.pure)
  }

  /** What it turns away: a node with a reject rule, or an unruled node that is
      neither a donor's nor a pure standard library function. */
  predicate TurnsAway(p: Problem, n: NodeId) {
    || (n in p.rules && p.rules[n].payload.RejectRule?)
    || (n !in p.rules && n.origin != Donor && !(n.origin == Stdlib && (n.mod, n.qualifiedName) in p.pure))
  }

  /** The evidence for one target.  Its disposition is told by the rule's payload
      and the node's origin alone, whatever edge led there. */
  function Classify(p: Problem, target: NodeId, edge: Option<Edge>): (ev: Evidence)
    ensures ev.edge == edge && ev.target == target
    ensures ev.disposition.Include? <==> Includes(p, target)
    ensures ev.disposition.External? <==> Assumes(p, target)
    ensures ev.disposition.Reject? <==> TurnsAway(p, target)
    ensures ev.disposition.MapTo? <==> target in p.rules && p.rules[target].payload.MapRule?
    ensures ev.disposition.Adapt? <==> target in p.rules && p.rules[target].payload.AdaptRule?
    ensures ev.disposition.Replace? <==> target in p.rules && p.rules[target].payload.ReplaceRule?
    ensures ev.reason.Some? <==> TurnsAway(p, target)
  {
    if target in p.rules then
      var rule := p.rules[target];
      var rejects := rule.payload.RejectRule?;
      Evidence(edge, target, rule.payload.Disposition(), Some(rule.ruleId),
               if rejects then Some(rule.payload.reason) else None,
               if rejects then Some(rule.payload.detailCode) else None,
               Some(rule.payload))
    else if target.origin.Donor? then
      Evidence(edge, target, Include, None, None, None, None)
    else if target.origin.Stdlib? && (target.mod, target.qualifiedName) in p.pure then
      Evidence(edge, target, External, None, None, None, None)
    else
      Evidence(edge, target, Reject, None, Some(REJECT_UNRESOLVED_EDGE), Some("no_exact_disposition_v1"), None)
  }

  // ----- The queue -----

  datatype Entry = Entry(depth: nat, serial: nat, node: NodeId, incoming: Option<Edge>)

  function IncomingKey(incoming: Option<Edge>): Key {
    if incoming.None? then [Num(0)] else [Num(1)] + EdgeKey(incoming.value)
  }

  function EntryKey(e: Entry): Key {
    [Num(e.depth)] + NodeKey(e.node) + IncomingKey(e.incoming) + [Num(e.serial)]
  }

  /** Heap order: the frontier key, then the insertion serial. */
  predicate EntryLess(a: Entry, b: Entry) { KeyLess(EntryKey(a), EntryKey(b)) }

  /** Entries compare by depth, node, incoming edge, none before any, and serial: the first that differs decides. */
  lemma EntryFieldsDecide(a: Entry, b: Entry)
    ensures EntryLess(a, b) <==>
            if a.depth != b.depth then a.depth < b.depth
            else if a.node != b.node then NodeLess(a.node, b.node)
            else if a.incoming != b.incoming then
              b.incoming.Some? && (a.incoming.None? || EdgeBefore(a.incoming.value, b.incoming.value))
            else a.serial < b.serial
  {
    hide NodeKey, EdgeKey, KeyLess, EdgeBefore;
    var sa, sb := [Num(a.serial)], [Num(b.serial)];
    var ia, ib := IncomingKey(a.incoming) + sa, IncomingKey(b.incoming) + sb;
    var k, l := [Num(a.depth)] + (NodeKey(a.node) + ia), [Num(b.depth)] + (NodeKey(b.node) + ib);
    assert EntryKey(a) == k && EntryKey(b) == l;
    assert k[0..] == k && l[0..] == l && k[1..] == NodeKey(a.node) + ia && l[1..] == NodeKey(b.node) + ib;
    DecidesAt(k, l, 0);
    PartsDecide(NodeKey(a.node), NodeKey(b.node), ia, ib);
    if NodeKey(a.node) == NodeKey(b.node) { NodeKeyInjective(a.node, b.node); }
    IncomingDecides(a.incoming, b.incoming, sa, sb);
    assert sa[0..] == sa && sb[0..] == sb && sa[1..] == [] && sb[1..] == [];
    DecidesAt(sa, sb, 0);
    KeyOrder();
  }

  lemma IncomingDecides(a: Option<Edge>, b: Option<Edge>, x: Key, y: Key)
    ensures KeyLess(IncomingKey(a) + x, IncomingKey(b) + y) <==>
            if a != b then b.Some? && (a.None? || EdgeBefore(a.value, b.value)) else KeyLess(x, y)
  {
    hide EdgeKey, KeyLess, EdgeBefore;
    if a.Some? && b.Some? {
      EdgesDecide(a.value, b.value, x, y);
    } else {
      var k, l := IncomingKey(a) + x, IncomingKey(b) + y;
      assert k[0..] == k && l[0..] == l && k[0] == IncomingKey(a)[0] && l[0] == IncomingKey(b)[0];
      DecidesAt(k, l, 0);
      if a.None? && b.None? { assert k[1..] == x && l[1..] == y; }
    }
  }

  lemma EdgesDecide(a: Edge, b: Edge, x: Key, y: Key)
    ensures KeyLess([Num(1)] + EdgeKey(a) + x, [Num(1)] + EdgeKey(b) + y) <==>
            if a != b then EdgeBefore(a, b) else KeyLess(x, y)
  {
    hide EdgeKey, KeyLess, EdgeBefore;
    var k, l := EdgeKey(a) + x, EdgeKey(b) + y;
    assert [Num(1)] + EdgeKey(a) + x == [Num(1)] + k && [Num(1)] + EdgeKey(b) + y == [Num(1)] + l;
    PartsDecide([Num(1)], [Num(1)], k, l);
    EdgeDecides(a, b, x, y);
  }

  function Least(queue: seq<Entry>): (i: nat)
    requires queue != []
    ensures i < |queue|
  {
    if |queue| == 1 then 0
    else
      var j := Least(queue[1..]);
      if EntryLess(queue[1 + j], queue[0]) then 1 + j else 0
  }

  lemma {:induction false} LeastIsMinimal(queue: seq<Entry>, k: nat)
    requires k < |queue|
    ensures !EntryLess(queue[k], queue[Least(queue)])
  {
    KeyOrder();
    if |queue| > 1 {
      if k > 0 { LeastIsMinimal(queue[1..], k - 1); }
      LeastIsMinimal(queue[1..], Least(queue[1..]));
    }
  }

  lemma LeastHasLeastDepth(queue: seq<Entry>, k: nat)
    requires k < |queue|
    ensures queue[Least(queue)].depth <= queue[k].depth
  {
    LeastIsMinimal(queue, k);
    var a, b := queue[k], queue[Least(queue)];
    assert EntryKey(a)[0] == Num(a.depth) && EntryKey(b)[0] == Num(b.depth);
    assert a.depth < b.depth ==> EntryLess(a, b);
  }

  function RemoveAt<T>(s: seq<T>, i: nat): (r: seq<T>)
    requires i < |s|
    ensures |r| == |s| - 1
  {
    s[..i] + s[i + 1..]
  }

  lemma RemoveAtMembers<T>(s: seq<T>, i: nat)
    requires i < |s|
    ensures forall x :: x in RemoveAt(s, i) ==> x in s
    ensures forall x :: x in s ==> x == s[i] || x in RemoveAt(s, i)
  {
    forall x | x in s ensures x == s[i] || x in RemoveAt(s, i) {
      var k :| 0 <= k < |s| && s[k] == x;
      if k < i { assert RemoveAt(s, i)[k] == x; }
      if k > i { assert RemoveAt(s, i)[k - 1] == x; }
    }
  }

  // ----- The walk -----

  datatype State = State(
    members: seq<Member>, dispositions: seq<Evidence>, traversed: seq<EdgeEvidence>, unresolved: seq<UnresolvedEdge>,
    blockers: seq<Blocker>, frontier: seq<Frontier>, visited: map<NodeId, nat>, queue: seq<Entry>, serial: nat,
    peakQueue: nat, workUnits: nat, edgesExamined: nat, external: set<NodeId>, budgetHit: bool)

  function Start(p: Problem, b: Budget): State {
    State([], [], [], [], [], [], map[], [Entry(0, 0, p.seed, None)], 0, 1, 1, 0, {},
          ConfigEntries(p) > b.maxConfigEntries || b.maxQueueEntries < 1 || 1 > b.maxWorkUnits)
  }

  /** The depth recomputed from `visited` when an entry leaves the heap. */
  function EntryDepth(visited: map<NodeId, nat>, incoming: Option<Edge>): nat {
    if incoming.None? then 0
    else if incoming.value.source in visited then visited[incoming.value.source] + 1
    else 0
  }

  function AsBlockers(items: seq<UnresolvedEdge>): (r: seq<Blocker>)
    ensures |r| == |items|
    ensures forall k :: 0 <= k < |r| ==> r[k] == Unresolved(items[k])
  {
    seq(|items|, k requires 0 <= k < |items| => Unresolved(items[k]))
  }

  function Verify(p: Problem, source: SourceRef): Verification {
    if source in p.verification then
      p.verification[source]
    else Refused(REJECT_PROVENANCE_MISMATCH, "bts_source_read_v1")
  }

  function RecordRejection(w: State, evidence: Evidence): State {
    w.(dispositions := w.dispositions + [evidence], blockers := w.blockers + [Rejected(evidence)])
  }

  /** The prospective members break a size budget or the donor-source ratio. */
  predicate Oversized(p: Problem, b: Budget, prospective: seq<Member>) {
    var lines := |LinesOf(prospective)|;
    var total := |DonorLines(p)|;
    || |prospective| > b.maxNodes
    || |prospective| > b.maxSymbols
    || |FilesOf(prospective)| > b.maxFiles
    || lines > b.maxSourceLines
    || total <= 0
    || lines * 10000 > total * b.maxDonorSourceBps
  }

  function Defer(w: State, at: Frontier): State {
    w.(frontier := w.frontier + [at], budgetHit := true)
  }

  function NoteUnresolved(w: State, items: seq<UnresolvedEdge>): State {
    w.(unresolved := w.unresolved + items, blockers := w.blockers + AsBlockers(items))
  }

  function Admit(p: Problem, w: State, m: Member): State {
    NoteUnresolved(w.(members := w.members + [m]), UnresolvedOf(p, m.node))
  }

  /** Take one nested owner into the span of the member at `at`. */
  function VisitOne(p: Problem, b: Budget, w: State, at: Frontier, n: NodeId): State {
    var w1 := w.(workUnits := w.workUnits + 1);
    if w1.workUnits > b.maxWorkUnits then Defer(w1, at)
    else if n !in w1.visited || w1.visited[n] > at.depth then
      NoteUnresolved(w1.(visited := w1.visited[n := at.depth]), UnresolvedOf(p, n))
    else w1
  }

  /** The nested loop stops at the first budget hit. The second result lists the owners newly taken. */
  function VisitAll(
      p: Problem, b: Budget, w: State, at: Frontier, owners: seq<NodeId>, todo: seq<NodeId>): (State, seq<NodeId>)
    decreases |todo|
  {
    if todo == [] || w.budgetHit then (w, owners)
    else
      var n := todo[0];
      var w1 := VisitOne(p, b, w, at, n);
      var taken := !w1.budgetHit && (n !in w.visited || w.visited[n] > at.depth);
      VisitAll(p, b, w1, at, if taken then owners + [n] else owners, todo[1..])
  }

  function EdgesOf(p: Problem, owners: seq<NodeId>): seq<Edge> {
    if owners == [] then [] else EdgesOf(p, owners[..|owners| - 1]) + Outgoing(p, owners[|owners| - 1])
  }

  /** An import edge proves the binding of a reached runtime edge. */
  predicate Supports(imp: Edge, binding: SourceRef) {
    imp.provenance.binding == Some(binding) || imp.provenance.site == binding
  }

  function SupportOne(p: Problem, w: State, depth: nat, imp: Edge): State {
    var ev := Classify(p, imp.target, Some(imp));
    var w1 := w.(
      workUnits := w.workUnits + 2,
      dispositions := w.dispositions + [ev],
      traversed := w.traversed + [EdgeEvidence(depth, imp, ev.disposition, ev.ruleId)]);
    if ev.disposition.Reject? then w1.(blockers := w1.blockers + [Rejected(ev)])
    else if ev.disposition.External? then w1.(external := w1.external + {imp.target})
    else w1
  }

  function SupportAll(p: Problem, w: State, depth: nat, binding: SourceRef, imports: seq<Edge>): State
    decreases |imports|
  {
    if imports == [] then w
    else
      SupportAll(p, if Supports(imports[0], binding)
          then SupportOne(p, w, depth, imports[0]) else w, depth, binding, imports[1..])
  }

  /** Count, classify and record one runtime edge. */
  function Record(p: Problem, w: State, depth: nat, e: Edge): State {
    var ev := Classify(p, e.target, Some(e));
    w.(workUnits := w.workUnits + 2,
       edgesExamined := w.edgesExamined + 1,
       dispositions := w.dispositions + [ev],
       traversed := w.traversed + [EdgeEvidence(depth + 1, e, ev.disposition, ev.ruleId)],
       blockers := if ev.disposition.Reject? then w.blockers + [Rejected(ev)] else w.blockers,
       external := if ev.disposition.External? then w.external + {e.target} else w.external)
  }

  predicate Exhausted(b: Budget, w: State) {
    w.workUnits > b.maxWorkUnits || w.edgesExamined > b.maxEdges || |w.external| > b.maxExternalInterfaces
  }

  function Enqueue(w: State, depth: nat, e: Edge): State {
    var queue := w.queue + [Entry(depth + 1, w.serial + 1, e.target, Some(e))];
    w.(serial := w.serial + 1, queue := queue, workUnits := w.workUnits + 1,
       peakQueue := if |queue| > w.peakQueue then |queue| else w.peakQueue)
  }

  /** Examine one runtime edge of a member at `depth`. A budget hit does not stop
      the remaining edges from being examined, so later rejections still count. */
  function ExamineOne(p: Problem, b: Budget, w: State, depth: nat, e: Edge): State {
    var d := Classify(p, e.target, Some(e)).disposition;
    var w1 := Record(p, w, depth, e);
    if d.Reject? then w1
    else if Exhausted(b, w1) then Defer(w1, Frontier(depth + 1, e.target, Some(e)))
    else if d.Include? && (depth + 1 > b.maxDepth || |w1.queue| + 1 > b.maxQueueEntries) then
      Defer(w1, Frontier(depth + 1, e.target, Some(e)))
    else
      var w2 := if d.Include? then Enqueue(w1, depth, e) else w1;
      if e.provenance.binding.None? then w2
      else SupportAll(p, w2, depth + 1, e.provenance.binding.value, ImportEdges(p))
  }

  function ExamineAll(p: Problem, b: Budget, w: State, depth: nat, edges: seq<Edge>): State
    decreases |edges|
  {
    if edges == [] then w else ExamineAll(p, b, ExamineOne(p, b, w, depth, edges[0]), depth, edges[1..])
  }

  /** Everything that follows from admitting a member: its nested owners, then their edges. */
  function Expand(p: Problem, b: Budget, w: State, at: Frontier): State {
    var (w1, owners) := VisitAll(p, b, w, at, [at.node], Nested(p, at.node));
    if w1.budgetHit then w1 else ExamineAll(p, b, w1, at.depth, Sort(EdgeLess, EdgesOf(p, owners)))
  }

  /** Why a reached node cannot be a member: it has no source, or its bytes fail verification. */
  function Refusal(p: Problem, n: NodeId): Option<(string, string)> {
    var source := SourceOf(p.graph.nodes, n);
    if source.None? then Some((REJECT_PROVENANCE_MISMATCH, "included_node_missing_source_v1"))
    else
      match Verify(p, source.value)
      case Refused(reason, detailCode) => Some((reason, detailCode))
      case Verified(_) => None
  }

  function MemberOf(p: Problem, n: NodeId): (m: Member)
    requires Refusal(p, n).None?
    ensures m.node == n
  {
    var source := SourceOf(p.graph.nodes, n).value;
    Member(n, source, Verify(p, source).digest)
  }

  function SourceRejection(p: Problem, n: NodeId, incoming: Option<Edge>): Evidence
    requires Refusal(p, n).Some?
  {
    Evidence(incoming, n, Reject, None, Some(Refusal(p, n).value.0), Some(Refusal(p, n).value.1), None)
  }

  /** A newly reached node: refused, deferred over budget, or admitted and expanded. */
  function Reach(p: Problem, b: Budget, w: State, at: Frontier): State {
    if Refusal(p, at.node).Some? then
      RecordRejection(w, SourceRejection(p, at.node, at.incoming))
    else
      var m := MemberOf(p, at.node);
      if Oversized(p, b, w.members + [m]) then Defer(w, at) else Expand(p, b, Admit(p, w, m), at)
  }

  /** One iteration of the walk. */
  function Step(p: Problem, b: Budget, w: State): State
    requires w.queue != [] && !w.budgetHit
  {
    var i := Least(w.queue);
    var e := w.queue[i];
    var at := Frontier(EntryDepth(w.visited, e.incoming), e.node, e.incoming);
    var w1 := w.(queue := RemoveAt(w.queue, i), workUnits := w.workUnits + 1);
    if w1.workUnits > b.maxWorkUnits then
      w1.(queue := w1.queue + [Entry(at.depth, w.serial, e.node, e.incoming)], budgetHit := true)
    else if e.node in w.visited && w.visited[e.node] <= at.depth then w1
    else Reach(p, b, w1.(visited := w1.visited[e.node := at.depth]), at)
  }

  predicate Running(w: State) { w.queue != [] && !w.budgetHit }

  /** What bounds the rest of a run: the work left, and whether a budget has been hit. */
  function WorkLeft(b: Budget, w: State): nat {
    if w.workUnits <= b.maxWorkUnits then b.maxWorkUnits - w.workUnits + 1 else 0
  }

  function MayRun(w: State): nat { if w.budgetHit then 0 else 1 }

  /** The whole loop. Every iteration spends work units, so it ends whatever the budget. */
  function Run(p: Problem, b: Budget, w: State): State
    decreases WorkLeft(b, w), MayRun(w)
  {
    if !Running(w) then w
    else
      StepSpends(p, b, w);
      Run(p, b, Step(p, b, w))
  }

  lemma {:induction false} SupportAllSpends(p: Problem, w: State, depth: nat, binding: SourceRef, imports: seq<Edge>)
    ensures SupportAll(p, w, depth, binding, imports).workUnits >= w.workUnits
    decreases |imports|
  {
    if imports != [] {
      SupportAllSpends(p, if Supports(imports[0], binding)
          then SupportOne(p, w, depth, imports[0]) else w, depth, binding, imports[1..]);
    }
  }

  lemma {:induction false} ExamineAllSpends(p: Problem, b: Budget, w: State, depth: nat, edges: seq<Edge>)
    ensures ExamineAll(p, b, w, depth, edges).workUnits >= w.workUnits
    decreases |edges|
  {
    if edges != [] {
      var e := edges[0];
      var w1 := Record(p, w, depth, e);
      if e.provenance.binding.Some? {
        SupportAllSpends(p, w1, depth + 1, e.provenance.binding.value, ImportEdges(p));
        SupportAllSpends(p, Enqueue(w1, depth, e), depth + 1, e.provenance.binding.value, ImportEdges(p));
      }
      ExamineAllSpends(p, b, ExamineOne(p, b, w, depth, e), depth, edges[1..]);
    }
  }

  lemma {:induction false} VisitAllSpends(
      p: Problem, b: Budget, w: State, at: Frontier, owners: seq<NodeId>, todo: seq<NodeId>)
    ensures VisitAll(p, b, w, at, owners, todo).0.workUnits >= w.workUnits
    decreases |todo|
  {
    if todo != [] && !w.budgetHit {
      var n := todo[0];
      var w1 := VisitOne(p, b, w, at, n);
      var taken := !w1.budgetHit && (n !in w.visited || w.visited[n] > at.depth);
      VisitAllSpends(p, b, w1, at, if taken then owners + [n] else owners, todo[1..]);
    }
  }

  lemma ExpandSpends(p: Problem, b: Budget, w: State, at: Frontier)
    ensures Expand(p, b, w, at).workUnits >= w.workUnits
  {
    hide VisitAll, ExamineAll;
    var (w1, owners) := VisitAll(p, b, w, at, [at.node], Nested(p, at.node));
    VisitAllSpends(p, b, w, at, [at.node], Nested(p, at.node));
    ExamineAllSpends(p, b, w1, at.depth, Sort(EdgeLess, EdgesOf(p, owners)));
  }

  lemma ReachSpends(p: Problem, b: Budget, w: State, at: Frontier)
    ensures Reach(p, b, w, at).workUnits >= w.workUnits
  {
    hide Expand, Oversized, Refusal;
    if Refusal(p, at.node).None? {
      ExpandSpends(p, b, Admit(p, w, MemberOf(p, at.node)), at);
    }
  }

  lemma StepSpends(p: Problem, b: Budget, w: State)
    requires Running(w)
    ensures Step(p, b, w).workUnits > w.workUnits
    ensures w.workUnits > b.maxWorkUnits ==> Step(p, b, w).budgetHit
  {
    hide Reach, Least;
    var i := Least(w.queue);
    var e := w.queue[i];
    var at := Frontier(EntryDepth(w.visited, e.incoming), e.node, e.incoming);
    ReachSpends(p, b, w.(queue := RemoveAt(w.queue, i), workUnits := w.workUnits + 1,
        visited := w.visited[e.node := at.depth]), at);
  }

  // ----- The verdict -----

  datatype Status = Complete | Partial | RejectStatus

  datatype Outcome = Outcome(status: Status, walk: State, frontier: seq<Frontier>, blockers: seq<Blocker>)

  /** What is still queued when the loop ends joins the frontier. */
  function Leftover(visited: map<NodeId, nat>, queue: seq<Entry>): (r: seq<Frontier>)
    ensures |r| == |queue|
  {
    seq(|queue|, k requires 0 <= k < |queue| =>
      Frontier(EntryDepth(visited, queue[k].incoming), queue[k].node, queue[k].incoming))
  }

  /** Extraction is certified complete. */
  predicate Certified(p: Problem) {
    p.graph.coverage.files != [] && p.graph.coverage.files == p.graph.coverage.parsedFiles
  }

  function SeedEvidence(p: Problem, reason: string, detailCode: string): Evidence {
    Evidence(None, p.seed, Reject, None, Some(reason), Some(detailCode), None)
  }

  function Conclude(p: Problem, w: State): Outcome {
    var frontier := w.frontier + Leftover(w.visited, w.queue);
    if w.blockers != [] then Outcome(RejectStatus, w, frontier, w.blockers)
    else
      var coverage := if Certified(p)
          then [] else [Rejected(SeedEvidence(p, REJECT_UNDER_COLLECTION, "b4_runtime_references_incomplete_v1"))];
      var budget := if w.budgetHit
          then [Rejected(SeedEvidence(p, REJECT_BUDGET_EXCEEDED, "bts_walk_budget_v1"))] else [];
      Outcome(if coverage + budget == [] then Complete else Partial, w, frontier, coverage + budget)
  }

  predicate SeedKind(k: NodeKind) { k.Function? || k.AsyncFunction? || k.Method? || k.AsyncMethod? }

  predicate ValidSeed(p: Problem) {
    p.seed.origin.Donor? && SeedKind(p.seed.kind) && SourceOf(p.graph.nodes, p.seed).Some?
  }

  function EmptyState(): State { State([], [], [], [], [], [], map[], [], 0, 0, 0, 0, {}, false) }

  /** The whole computation, with an unusable seed rejected before any walk. */
  function Compute(p: Problem, b: Budget): Outcome {
    if !ValidSeed(p) then
      var ev := SeedEvidence(p, REJECT_UNRESOLVED_EDGE, "invalid_or_ambiguous_seed_v1");
      Outcome(RejectStatus, EmptyState().(dispositions := [ev], blockers := [Rejected(ev)]), [], [Rejected(ev)])
    else
      Conclude(p, Run(p, b, Start(p, b)))
  }
}
