/** The dependency graph: identities, edges with their provenance, and the
    canonical keys by which both analyses order them. */
module GraphModel {
  import opened Ordering

  datatype NodeOrigin = Donor | Stdlib | DeclaredExternal | TestOrigin | ResourceOrigin {
    function Value(): string {
      match this
      case Donor => "donor"
      case Stdlib => "stdlib"
      case DeclaredExternal => "declared_external"
      case TestOrigin => "test"
      case ResourceOrigin => "resource"
    }
  }

  datatype NodeKind =
    Module | Function | AsyncFunction | Class | Method | AsyncMethod | Constant | TestKind | ResourceKind
  {
    function Value(): string {
      match this
      case Module => "module"
      case Function => "function"
      case AsyncFunction => "async_function"
      case Class => "class"
      case Method => "method"
      case AsyncMethod => "async_method"
      case Constant => "constant"
      case TestKind => "test"
      case ResourceKind => "resource"
    }

    /** Kinds whose source span may own nested definitions. */
    predicate Definition() {
      Class? || Function? || AsyncFunction? || Method? || AsyncMethod?
    }

    predicate Async() { AsyncFunction? || AsyncMethod? }
  }

  datatype EdgeKind = Imports | Inherits | Raises | Calls | Instantiates | Reads | TestedBy {
    function Value(): string {
      match this
      case Imports => "imports"
      case Inherits => "inherits"
      case Raises => "raises"
      case Calls => "calls"
      case Instantiates => "instantiates"
      case Reads => "reads"
      case TestedBy => "tested_by"
    }

    /** The kinds a walk follows. */
    predicate Runtime() { Calls? || Instantiates? || Reads? || Inherits? || Raises? }
  }

  datatype SourceRef = SourceRef(
    slug: string, commitSha: string, path: string, blobSha: string,
    startLine: int, startCol: int, endLine: int, endCol: int)
  {
    predicate Valid() {
      && startLine >= 1 && startCol >= 0 && endLine >= 1 && endCol >= 0
      && !Earlier(endLine, endCol, startLine, startCol)
    }

    predicate SameBlob(other: SourceRef) {
      slug == other.slug && commitSha == other.commitSha && path == other.path && blobSha == other.blobSha
    }

    /** The lexicographic containment test of the ownership index. */
    predicate Encloses(inner: SourceRef) {
      && SameBlob(inner)
      && !Earlier(inner.startLine, inner.startCol, startLine, startCol)
      && !Earlier(endLine, endCol, inner.endLine, inner.endCol)
    }
  }

  /** (l1, c1) precedes (l2, c2) as Python tuples. */
  predicate Earlier(l1: int, c1: int, l2: int, c2: int) {
    l1 < l2 || (l1 == l2 && c1 < c2)
  }

  datatype NodeId = NodeId(origin: NodeOrigin, kind: NodeKind, mod: string, qualifiedName: string, locationKey: string)

  datatype Node = Node(id: NodeId, source: Option<SourceRef>)

  datatype Provenance = Provenance(site: SourceRef, binding: Option<SourceRef>, astKind: string,
      resolutionRule: string, protocolBase: bool)

  datatype Edge = Edge(kind: EdgeKind, source: NodeId, target: NodeId, provenance: Provenance)

  datatype UnresolvedEdge = UnresolvedEdge(
    kind: EdgeKind, source: NodeId, expression: string, provenance: Provenance, reason: string, detailCode: string)

  datatype Coverage = Coverage(files: seq<SourceRef>, parsedFiles: seq<SourceRef>)

  datatype Graph = Graph(nodes: seq<Node>, edges: seq<Edge>, unresolved: seq<UnresolvedEdge>, coverage: Coverage)

  // ----- Canonical keys -----

  function NodeKey(n: NodeId): (k: Key)
    ensures |k| == 5
  {
    [Text(n.origin.Value()), Text(n.kind.Value()), Text(n.mod), Text(n.qualifiedName), Text(n.locationKey)]
  }

  function SourceKey(s: SourceRef): (k: Key)
    ensures |k| == 8
  {
    [Text(s.slug), Text(s.commitSha), Text(s.path), Text(s.blobSha),
     Num(s.startLine), Num(s.startCol), Num(s.endLine), Num(s.endCol)]
  }

  function BindingKey(binding: Option<SourceRef>): (k: Key)
    ensures |k| == if binding.None? then 1 else 9
  {
    if binding.None? then [Num(0)] else [Num(1)] + SourceKey(binding.value)
  }

  function ProvenanceKey(p: Provenance): Key {
    SourceKey(p.site) + BindingKey(p.binding)
    + [Text(p.astKind), Text(p.resolutionRule), Num(if p.protocolBase then 1 else 0)]
  }

  function EdgeKey(e: Edge): Key {
    NodeKey(e.source) + [Text(e.kind.Value())] + NodeKey(e.target) + ProvenanceKey(e.provenance)
  }

  predicate NodeLess(a: NodeId, b: NodeId) { KeyLess(NodeKey(a), NodeKey(b)) }

  predicate EdgeLess(a: Edge, b: Edge) { KeyLess(EdgeKey(a), EdgeKey(b)) }

  lemma NodeKeyInjective(a: NodeId, b: NodeId)
    requires NodeKey(a) == NodeKey(b)
    ensures a == b
  {
    assert NodeKey(a)[0] == NodeKey(b)[0] && NodeKey(a)[1] == NodeKey(b)[1] && NodeKey(a)[2] == NodeKey(b)[2]
        && NodeKey(a)[3] == NodeKey(b)[3] && NodeKey(a)[4] == NodeKey(b)[4];
    OriginValueInjective(a.origin, b.origin);
    KindValueInjective(a.kind, b.kind);
  }

  lemma OriginValueInjective(a: NodeOrigin, b: NodeOrigin)
    requires a.Value() == b.Value()
    ensures a == b
  {
    assert |a.Value()| == |b.Value()|;
    assert a.Value()[0] == b.Value()[0];
  }

  lemma KindValueInjective(a: NodeKind, b: NodeKind)
    requires a.Value() == b.Value()
    ensures a == b
  {
    assert |a.Value()| == |b.Value()|;
    assert a.Value()[0] == b.Value()[0] && a.Value()[2] == b.Value()[2];
  }

  lemma EdgeKindValueInjective(a: EdgeKind, b: EdgeKind)
    requires a.Value() == b.Value()
    ensures a == b
  {
    assert |a.Value()| == |b.Value()|;
    assert a.Value()[0] == b.Value()[0] && a.Value()[1] == b.Value()[1];
  }

  lemma SourceKeyInjective(a: SourceRef, b: SourceRef)
    requires SourceKey(a) == SourceKey(b)
    ensures a == b
  {
    var k, l := SourceKey(a), SourceKey(b);
    assert k[0] == l[0] && k[1] == l[1] && k[2] == l[2] && k[3] == l[3];
    assert k[4] == l[4] && k[5] == l[5] && k[6] == l[6] && k[7] == l[7];
  }

  /** Equal concatenations with equally long heads have equal parts. */
  lemma SplitEqual<T>(a: seq<T>, b: seq<T>, c: seq<T>, d: seq<T>)
    requires a + b == c + d && |a| == |c|
    ensures a == c && b == d
  {
    assert a == (a + b)[..|a|] == (c + d)[..|c|] == c;
    assert b == (a + b)[|a|..] == (c + d)[|c|..] == d;
  }

  lemma ProvenanceKeyInjective(a: Provenance, b: Provenance)
    requires ProvenanceKey(a) == ProvenanceKey(b)
    ensures a == b
  {
    var ta := [Text(a.astKind), Text(a.resolutionRule), Num(if a.protocolBase then 1 else 0)];
    var tb := [Text(b.astKind), Text(b.resolutionRule), Num(if b.protocolBase then 1 else 0)];
    assert SourceKey(a.site) + (BindingKey(a.binding) + ta) == ProvenanceKey(a);
    assert SourceKey(b.site) + (BindingKey(b.binding) + tb) == ProvenanceKey(b);
    SplitEqual(SourceKey(a.site), BindingKey(a.binding) + ta, SourceKey(b.site), BindingKey(b.binding) + tb);
    SourceKeyInjective(a.site, b.site);
    SplitEqual(BindingKey(a.binding), ta, BindingKey(b.binding), tb);
    assert ta[0] == tb[0] && ta[1] == tb[1] && ta[2] == tb[2];
    if a.binding.Some? && b.binding.Some? {
      SplitEqual([Num(1)], SourceKey(a.binding.value), [Num(1)], SourceKey(b.binding.value));
      SourceKeyInjective(a.binding.value, b.binding.value);
    }
  }

  lemma EdgeKeyInjective(a: Edge, b: Edge)
    requires EdgeKey(a) == EdgeKey(b)
    ensures a == b
  {
    hide NodeKey, ProvenanceKey, NodeKind.Value, EdgeKind.Value;
    var ka, kb := [Text(a.kind.Value())], [Text(b.kind.Value())];
    assert EdgeKey(a) == NodeKey(a.source) + (ka + (NodeKey(a.target) + ProvenanceKey(a.provenance)));
    assert EdgeKey(b) == NodeKey(b.source) + (kb + (NodeKey(b.target) + ProvenanceKey(b.provenance)));
    SplitEqual(NodeKey(a.source), ka + (NodeKey(a.target) + ProvenanceKey(a.provenance)),
               NodeKey(b.source), kb + (NodeKey(b.target) + ProvenanceKey(b.provenance)));
    SplitEqual(ka, NodeKey(a.target) + ProvenanceKey(a.provenance), kb,
        NodeKey(b.target) + ProvenanceKey(b.provenance));
    SplitEqual(NodeKey(a.target), ProvenanceKey(a.provenance), NodeKey(b.target), ProvenanceKey(b.provenance));
    assert ka[0] == kb[0];
    EdgeKindValueInjective(a.kind, b.kind);
    NodeKeyInjective(a.source, b.source);
    NodeKeyInjective(a.target, b.target);
    ProvenanceKeyInjective(a.provenance, b.provenance);
  }

  /** The canonical edge key orders all edges strictly and totally. */
  lemma EdgeOrder()
    ensures StrictTotal(EdgeLess)
  {
    KeyOrder();
    forall a: Edge, b: Edge ensures EdgeLess(a, b) || a == b || EdgeLess(b, a) {
      if EdgeKey(a) == EdgeKey(b) { EdgeKeyInjective(a, b); }
    }
  }

  lemma NodeOrder()
    ensures StrictTotal(NodeLess)
  {
    KeyOrder();
    forall a: NodeId, b: NodeId ensures NodeLess(a, b) || a == b || NodeLess(b, a) {
      if NodeKey(a) == NodeKey(b) { NodeKeyInjective(a, b); }
    }
  }

  // ----- Which field decides -----

  /** Nodes compare by origin, kind, module, name and location: the first of them that differs decides. */
  lemma NodeFieldsDecide(a: NodeId, b: NodeId)
    ensures NodeLess(a, b) <==>
            if a.origin != b.origin then StringLess(a.origin.Value(), b.origin.Value())
            else if a.kind != b.kind then StringLess(a.kind.Value(), b.kind.Value())
            else if a.mod != b.mod then StringLess(a.mod, b.mod)
            else if a.qualifiedName != b.qualifiedName then StringLess(a.qualifiedName, b.qualifiedName)
            else StringLess(a.locationKey, b.locationKey)
  {
    hide NodeOrigin.Value, NodeKind.Value, StringLess, KeyLess;
    if a.origin.Value() == b.origin.Value() { OriginValueInjective(a.origin, b.origin); }
    if a.kind.Value() == b.kind.Value() { KindValueInjective(a.kind, b.kind); }
    var k, l := NodeKey(a), NodeKey(b);
    assert k[0..] == k && l[0..] == l;
    DecidesAt(k, l, 0);
    FourDecide(k[1..], l[1..]);
  }

  predicate SourceLess(a: SourceRef, b: SourceRef) { KeyLess(SourceKey(a), SourceKey(b)) }

  /** Sources compare by slug, commit, path and blob, then by where they start, then by
      where they end, lines before columns: the first of them that differs decides. */
  lemma SourceFieldsDecide(a: SourceRef, b: SourceRef)
    ensures SourceLess(a, b) <==>
            if a.slug != b.slug then StringLess(a.slug, b.slug)
            else if a.commitSha != b.commitSha then StringLess(a.commitSha, b.commitSha)
            else if a.path != b.path then StringLess(a.path, b.path)
            else if a.blobSha != b.blobSha then StringLess(a.blobSha, b.blobSha)
            else if a.startLine != b.startLine then a.startLine < b.startLine
            else if a.startCol != b.startCol then a.startCol < b.startCol
            else if a.endLine != b.endLine then a.endLine < b.endLine
            else a.endCol < b.endCol
  {
    hide StringLess, KeyLess;
    var k, l := SourceKey(a), SourceKey(b);
    assert k == k[..4] + k[4..] && l == l[..4] + l[4..];
    PartsDecide(k[..4], l[..4], k[4..], l[4..]);
    FourDecide(k[..4], l[..4]);
    FourDecide(k[4..], l[4..]);
  }

  /** An absent binding comes first, and two present ones compare as sources. */
  predicate BindingLess(a: Option<SourceRef>, b: Option<SourceRef>) {
    b.Some? && (a.None? || SourceLess(a.value, b.value))
  }

  /** Provenances compare by site, binding, syntax kind, rule and protocol flag. */
  predicate ProvenanceLess(a: Provenance, b: Provenance) {
    if a.site != b.site then SourceLess(a.site, b.site)
    else if a.binding != b.binding then BindingLess(a.binding, b.binding)
    else if a.astKind != b.astKind then StringLess(a.astKind, b.astKind)
    else if a.resolutionRule != b.resolutionRule then StringLess(a.resolutionRule, b.resolutionRule)
    else !a.protocolBase && b.protocolBase
  }

  /** What follows the site: the binding's key has one length or another, but its tag decides before that shows. */
  lemma BindingDecides(a: Option<SourceRef>, b: Option<SourceRef>, x: Key, y: Key)
    ensures KeyLess(BindingKey(a) + x, BindingKey(b) + y) <==> if a != b then BindingLess(a, b) else KeyLess(x, y)
  {
    hide SourceKey, KeyLess;
    if a.Some? && b.Some? {
      var k, l := SourceKey(a.value), SourceKey(b.value);
      PartsDecide(BindingKey(a), BindingKey(b), x, y);
      PartsDecide([Num(1)], [Num(1)], k, l);
      if [Num(1)] + k == [Num(1)] + l {
        SplitEqual([Num(1)], k, [Num(1)], l);
        SourceKeyInjective(a.value, b.value);
      }
    } else {
      var k, l := BindingKey(a) + x, BindingKey(b) + y;
      assert k[0..] == k && l[0..] == l && k[0] == BindingKey(a)[0] && l[0] == BindingKey(b)[0];
      DecidesAt(k, l, 0);
      if a.None? && b.None? { assert k[1..] == x && l[1..] == y; }
    }
  }

  lemma ProvenanceDecides(a: Provenance, b: Provenance, x: Key, y: Key)
    ensures KeyLess(ProvenanceKey(a) + x, ProvenanceKey(b) + y) <==>
            if a != b then ProvenanceLess(a, b) else KeyLess(x, y)
  {
    hide SourceKey, BindingKey, StringLess, BindingLess, KeyLess;
    var ta := [Text(a.astKind), Text(a.resolutionRule), Num(if a.protocolBase then 1 else 0)] + x;
    var tb := [Text(b.astKind), Text(b.resolutionRule), Num(if b.protocolBase then 1 else 0)] + y;
    var k, l := BindingKey(a.binding) + ta, BindingKey(b.binding) + tb;
    assert ProvenanceKey(a) + x == SourceKey(a.site) + k && ProvenanceKey(b) + y == SourceKey(b.site) + l;
    PartsDecide(SourceKey(a.site), SourceKey(b.site), k, l);
    if SourceKey(a.site) == SourceKey(b.site) { SourceKeyInjective(a.site, b.site); }
    BindingDecides(a.binding, b.binding, ta, tb);
    assert ta[0..] == ta && tb[0..] == tb && ta[3..] == x && tb[3..] == y;
    DecidesAt(ta, tb, 0);
    DecidesAt(ta, tb, 1);
    DecidesAt(ta, tb, 2);
  }

  /** Edges compare by source, kind, target and provenance. */
  predicate EdgeBefore(a: Edge, b: Edge) {
    if a.source != b.source then NodeLess(a.source, b.source)
    else if a.kind != b.kind then StringLess(a.kind.Value(), b.kind.Value())
    else if a.target != b.target then NodeLess(a.target, b.target)
    else ProvenanceLess(a.provenance, b.provenance)
  }

  lemma EdgeDecides(a: Edge, b: Edge, x: Key, y: Key)
    ensures KeyLess(EdgeKey(a) + x, EdgeKey(b) + y) <==> if a != b then EdgeBefore(a, b) else KeyLess(x, y)
  {
    hide NodeKey, ProvenanceKey, EdgeKind.Value, StringLess, ProvenanceLess, KeyLess;
    var ka, kb := [Text(a.kind.Value())], [Text(b.kind.Value())];
    var pa, pb := ProvenanceKey(a.provenance) + x, ProvenanceKey(b.provenance) + y;
    var ta, tb := NodeKey(a.target) + pa, NodeKey(b.target) + pb;
    assert EdgeKey(a) + x == NodeKey(a.source) + (ka + ta) && EdgeKey(b) + y == NodeKey(b.source) + (kb + tb);
    PartsDecide(NodeKey(a.source), NodeKey(b.source), ka + ta, kb + tb);
    PartsDecide(ka, kb, ta, tb);
    PartsDecide(NodeKey(a.target), NodeKey(b.target), pa, pb);
    if NodeKey(a.source) == NodeKey(b.source) { NodeKeyInjective(a.source, b.source); }
    if NodeKey(a.target) == NodeKey(b.target) { NodeKeyInjective(a.target, b.target); }
    if a.kind.Value() == b.kind.Value() { EdgeKindValueInjective(a.kind, b.kind); }
    assert ka[0..] == ka && kb[0..] == kb && ka[0] == Text(a.kind.Value()) && kb[0] == Text(b.kind.Value());
    DecidesAt(ka, kb, 0);
    ProvenanceDecides(a.provenance, b.provenance, x, y);
  }

  /** The order of edges is the comparison of their fields: the first that differs decides. */
  lemma EdgeFieldsDecide(a: Edge, b: Edge)
    ensures EdgeLess(a, b) <==> a != b && EdgeBefore(a, b)
  {
    hide EdgeBefore, EdgeKey, KeyLess;
    assert EdgeKey(a) + [] == EdgeKey(a) && EdgeKey(b) + [] == EdgeKey(b);
    EdgeDecides(a, b, [], []);
    KeyOrder();
  }

  // ----- What the graph constructor guarantees -----

  ghost predicate HasNode(g: Graph, n: NodeId) {
    exists k :: 0 <= k < |g.nodes| && g.nodes[k].id == n
  }

  /** Node ids and edges are unique, sorted by their keys, and no edge dangles. */
  ghost predicate WellFormed(g: Graph) {
    && (forall i, j :: 0 <= i < j < |g.nodes| ==> g.nodes[i].id != g.nodes[j].id)
    && (forall k :: 0 <= k < |g.nodes| && g.nodes[k].source.Some? ==> g.nodes[k].source.value.Valid())
    && (forall i, j :: 0 <= i < j < |g.edges| ==> EdgeLess(g.edges[i], g.edges[j]))
    && (forall e :: e in g.edges ==> HasNode(g, e.source) && HasNode(g, e.target))
  }

  lemma EdgesDistinct(g: Graph)
    requires WellFormed(g)
    ensures NoDuplicates(g.edges)
  {
    EdgeOrder();
  }
}
