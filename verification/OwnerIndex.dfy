/** The lexical-ownership index: which graph nodes lie inside the source span
    of an enclosing definition. */
module OwnerIndex {
  import opened Ordering
  import opened GraphModel

  /** `name.rpartition(".")[0]`: the text before the last dot, or nothing. */
  function PartitionHead(name: string): (head: string)
    ensures name == "" ==> head == ""
    ensures name != "" ==> |head| < |name|
    decreases |name|
  {
    if name == "" then ""
    else if name[|name| - 1] == '.' then name[..|name| - 1]
    else PartitionHead(name[..|name| - 1])
  }

  /** `outer` is a non-empty prefix of `name` that a dot separates from the rest. */
  predicate DottedPrefix(outer: string, name: string) {
    0 < |outer| < |name| && name[..|outer|] == outer && name[|outer|] == '.'
  }

  /** Taking heads enumerates the dotted prefixes from the longest down: the head
      of a name is its longest dotted prefix, and the shorter ones are the head's own. */
  lemma {:induction false} HeadIsLongestPrefix(name: string, outer: string)
    ensures PartitionHead(name) != "" ==> DottedPrefix(PartitionHead(name), name)
    ensures DottedPrefix(outer, name) <==>
            PartitionHead(name) != "" && (outer == PartitionHead(name) || DottedPrefix(outer, PartitionHead(name)))
    decreases |name|
  {
    if name != "" {
      var front := name[..|name| - 1];
      if name[|name| - 1] == '.' {
        if DottedPrefix(outer, name) && |outer| < |front| {
          assert front[..|outer|] == name[..|outer|];
        }
        if front != "" && DottedPrefix(outer, front) {
          assert front[..|outer|] == name[..|outer|];
        }
        if DottedPrefix(outer, name) && |outer| == |front| {
          assert outer == front;
        }
      } else {
        HeadIsLongestPrefix(front, outer);
        var head := PartitionHead(name);
        if head != "" {
          assert front[..|head|] == name[..|head|];
        }
        if |outer| < |front| {
          assert front[..|outer|] == name[..|outer|];
        }
      }
    }
  }

  lemma DottedPrefixTransitive(a: string, b: string, c: string)
    requires DottedPrefix(a, b) && DottedPrefix(b, c)
    ensures DottedPrefix(a, c)
  {
    assert c[..|a|] == b[..|a|];
    assert c[|a|] == b[|a|];
  }

  /** The dictionary built over all nodes in order: the last entry of a name wins. */
  function Lexical(nodes: seq<Node>, origin: NodeOrigin, mod: string, name: string): (r: Option<Node>)
    ensures r.Some? ==>
            r.value in nodes && r.value.id.origin == origin && r.value.id.mod == mod && r.value.id.qualifiedName == name
  {
    if nodes == [] then None
    else
      var item := nodes[|nodes| - 1];
      if item.id.origin == origin && item.id.mod == mod && item.id.qualifiedName == name then Some(item)
      else Lexical(nodes[..|nodes| - 1], origin, mod, name)
  }

  /** `owner`, found under one of the child's dotted prefixes, is a definition whose span encloses the child. */
  predicate EnclosedBy(owner: Option<Node>, child: Node) {
    && child.source.Some?
    && owner.Some?
    && owner.value.id.kind.Definition()
    && owner.value.source.Some?
    && owner.value.source.value.Encloses(child.source.value)
  }

  predicate Owns(g: Graph, owner: NodeId, child: Node) {
    && DottedPrefix(owner.qualifiedName, child.id.qualifiedName)
    && var found := Lexical(g.nodes, child.id.origin, child.id.mod, owner.qualifiedName);
       EnclosedBy(found, child) && found.value.id == owner
  }

  function OwnedAmong(g: Graph, owner: NodeId, nodes: seq<Node>): seq<NodeId> {
    if nodes == [] then []
    else
      var front := OwnedAmong(g, owner, nodes[..|nodes| - 1]);
      var child := nodes[|nodes| - 1];
      if Owns(g, owner, child) then front + [child.id] else front
  }

  function NestedOwners(g: Graph, owner: NodeId): seq<NodeId> {
    OwnedAmong(g, owner, g.nodes)
  }

  lemma {:induction false} OwnedAmongMembers(g: Graph, owner: NodeId, nodes: seq<Node>, n: NodeId)
    ensures n in OwnedAmong(g, owner, nodes) <==>
            exists k :: 0 <= k < |nodes| && nodes[k].id == n && Owns(g, owner, nodes[k])
  {
    if nodes != [] {
      var front := nodes[..|nodes| - 1];
      OwnedAmongMembers(g, owner, front, n);
      if n in OwnedAmong(g, owner, front) {
        var k :| 0 <= k < |front| && front[k].id == n && Owns(g, owner, front[k]);
        assert nodes[k] == front[k];
      }
      if exists k :: 0 <= k < |nodes| && nodes[k].id == n && Owns(g, owner, nodes[k]) {
        var k :| 0 <= k < |nodes| && nodes[k].id == n && Owns(g, owner, nodes[k]);
        if k < |front| { assert front[k] == nodes[k]; }
      }
    }
  }

  lemma {:induction false} OwnedAmongDistinct(g: Graph, owner: NodeId, nodes: seq<Node>)
    requires forall i, j :: 0 <= i < j < |nodes| ==> nodes[i].id != nodes[j].id
    ensures NoDuplicates(OwnedAmong(g, owner, nodes))
  {
    if nodes != [] {
      var front := nodes[..|nodes| - 1];
      OwnedAmongDistinct(g, owner, front);
      OwnedAmongMembers(g, owner, front, nodes[|nodes| - 1].id);
    }
  }

  /** The later span starts no earlier and ends no later, position by position, in the same blob. */
  predicate Spans(outer: SourceRef, inner: SourceRef) {
    && (outer.slug, outer.commitSha, outer.path, outer.blobSha) ==
       (inner.slug, inner.commitSha, inner.path, inner.blobSha)
    && (outer.startLine < inner.startLine || (outer.startLine == inner.startLine && outer.startCol <= inner.startCol))
    && (inner.endLine < outer.endLine || (inner.endLine == outer.endLine && inner.endCol <= outer.endCol))
  }

  predicate SameName(a: NodeId, b: NodeId) {
    a.origin == b.origin && a.mod == b.mod && a.qualifiedName == b.qualifiedName
  }

  /** The definition at `i`, the last of its name, has the node at `j` inside it by name and by span. */
  ghost predicate InsideAt(g: Graph, i: nat, j: nat)
    requires i < |g.nodes| && j < |g.nodes|
  {
    var outer, inner := g.nodes[i], g.nodes[j];
    && outer.id.origin == inner.id.origin && outer.id.mod == inner.id.mod
    && outer.id.qualifiedName != "" && outer.id.qualifiedName + "." <= inner.id.qualifiedName
    && outer.id.kind in {Class, Function, AsyncFunction, Method, AsyncMethod}
    && outer.source.Some? && inner.source.Some? && Spans(outer.source.value, inner.source.value)
    && forall k :: i < k < |g.nodes| ==> !SameName(g.nodes[k].id, outer.id)
  }

  /** What nesting means of the graph alone. */
  ghost predicate Inside(g: Graph, inner: NodeId, outer: NodeId) {
    exists i, j :: 0 <= i < |g.nodes| && 0 <= j < |g.nodes| &&
      g.nodes[i].id == outer && g.nodes[j].id == inner && InsideAt(g, i, j)
  }

  lemma DottedPrefixExactly(outer: string, name: string)
    ensures DottedPrefix(outer, name) <==> outer != "" && outer + "." <= name
  {
    if DottedPrefix(outer, name) {
      assert name[..|outer| + 1] == outer + ".";
    }
    if outer + "." <= name {
      assert name[..|outer| + 1] == outer + ".";
      assert name[..|outer|] == name[..|outer| + 1][..|outer|];
    }
  }

  /** A lookup yields the last node of its name. */
  lemma {:induction false} LexicalIsLast(nodes: seq<Node>, origin: NodeOrigin, mod: string, name: string, i: nat)
    requires i < |nodes| && nodes[i].id.origin == origin && nodes[i].id.mod == mod && nodes[i].id.qualifiedName == name
    requires forall k :: i < k < |nodes| ==> !SameName(nodes[k].id, nodes[i].id)
    ensures Lexical(nodes, origin, mod, name) == Some(nodes[i])
  {
    if i < |nodes| - 1 { LexicalIsLast(nodes[..|nodes| - 1], origin, mod, name, i); }
  }

  lemma {:induction false} LexicalHasIndex(nodes: seq<Node>, origin: NodeOrigin, mod: string, name: string)
    returns (i: nat)
    requires Lexical(nodes, origin, mod, name).Some?
    ensures i < |nodes| && Lexical(nodes, origin, mod, name) == Some(nodes[i])
    ensures forall k :: i < k < |nodes| ==> !SameName(nodes[k].id, nodes[i].id)
  {
    var last := nodes[|nodes| - 1];
    if last.id.origin == origin && last.id.mod == mod && last.id.qualifiedName == name {
      i := |nodes| - 1;
    } else {
      i := LexicalHasIndex(nodes[..|nodes| - 1], origin, mod, name);
    }
  }

  lemma OwnsExactly(g: Graph, owner: NodeId, j: nat)
    requires j < |g.nodes|
    ensures Owns(g, owner, g.nodes[j]) <==>
            exists i :: 0 <= i < |g.nodes| && g.nodes[i].id == owner && InsideAt(g, i, j)
  {
    var child := g.nodes[j];
    DottedPrefixExactly(owner.qualifiedName, child.id.qualifiedName);
    if Owns(g, owner, child) {
      var i := LexicalHasIndex(g.nodes, child.id.origin, child.id.mod, owner.qualifiedName);
      assert InsideAt(g, i, j);
    }
    if i :| 0 <= i < |g.nodes| && g.nodes[i].id == owner && InsideAt(g, i, j) {
      LexicalIsLast(g.nodes, child.id.origin, child.id.mod, owner.qualifiedName, i);
    }
  }

  /** A node is indexed under an owner exactly when it lies inside it. */
  lemma NestedMembers(g: Graph, owner: NodeId, n: NodeId)
    ensures n in NestedOwners(g, owner) <==> Inside(g, n, owner)
  {
    hide Owns, InsideAt;
    OwnedAmongMembers(g, owner, g.nodes, n);
    if n in NestedOwners(g, owner) {
      var j :| 0 <= j < |g.nodes| && g.nodes[j].id == n && Owns(g, owner, g.nodes[j]);
      OwnsExactly(g, owner, j);
    }
    if Inside(g, n, owner) {
      var i, j :| 0 <= i < |g.nodes| && 0 <= j < |g.nodes| &&
        g.nodes[i].id == owner && g.nodes[j].id == n && InsideAt(g, i, j);
      OwnsExactly(g, owner, j);
    }
  }

  /** A definition nested in a nested definition is nested in the outermost one. */
  lemma NestedTransitive(g: Graph, a: NodeId, b: NodeId, c: NodeId)
    requires WellFormed(g)
    requires b in NestedOwners(g, a) && c in NestedOwners(g, b)
    ensures c in NestedOwners(g, a)
  {
    OwnedAmongMembers(g, a, g.nodes, b);
    OwnedAmongMembers(g, b, g.nodes, c);
    OwnedAmongMembers(g, a, g.nodes, c);
    var i :| 0 <= i < |g.nodes| && g.nodes[i].id == b && Owns(g, a, g.nodes[i]);
    var j :| 0 <= j < |g.nodes| && g.nodes[j].id == c && Owns(g, b, g.nodes[j]);
    var bn, cn := g.nodes[i], g.nodes[j];
    var found := Lexical(g.nodes, cn.id.origin, cn.id.mod, b.qualifiedName);
    var k :| 0 <= k < |g.nodes| && g.nodes[k] == found.value;
    assert k == i;
    DottedPrefixTransitive(a.qualifiedName, b.qualifiedName, c.qualifiedName);
    assert Owns(g, a, cn);
  }

  /** A node never owns itself. */
  lemma NestedIrreflexive(g: Graph, a: NodeId)
    ensures a !in NestedOwners(g, a)
  {
    OwnedAmongMembers(g, a, g.nodes, a);
  }

  function Get<K, V>(m: map<K, seq<V>>, k: K): seq<V> {
    if k in m then m[k] else []
  }

  /** The name dictionary: (origin, module, qualified name) to the last node bearing it. */
  type NameIndex = map<(NodeOrigin, string, string), Node>

  ghost predicate NamesOf(names: NameIndex, nodes: seq<Node>) {
    forall o, m, q :: (if (o, m, q) in names then Some(names[(o, m, q)]) else None) == Lexical(nodes, o, m, q)
  }

  method BuildNameIndex(nodes: seq<Node>) returns (names: NameIndex)
    ensures NamesOf(names, nodes)
  {
    names := map[];
    for i := 0 to |nodes|
      invariant NamesOf(names, nodes[..i])
    {
      var id := nodes[i].id;
      assert nodes[..i + 1][..i] == nodes[..i];
      names := names[(id.origin, id.mod, id.qualifiedName) := nodes[i]];
    }
    assert nodes[..|nodes|] == nodes;
  }

  /** The climb has not yet passed this owner's name. */
  ghost predicate Pending(owner: NodeId, prefix: string) {
    prefix != "" && (owner.qualifiedName == prefix || DottedPrefix(owner.qualifiedName, prefix))
  }

  lemma ClimbStep(owner: NodeId, prefix: string)
    requires prefix != ""
    ensures Pending(owner, prefix) <==> owner.qualifiedName == prefix || Pending(owner, PartitionHead(prefix))
    ensures owner.qualifiedName == prefix ==> !Pending(owner, PartitionHead(prefix))
  {
    HeadIsLongestPrefix(prefix, owner.qualifiedName);
  }

  /** What the index holds for `owner` once the child's climb has come down to `prefix`. */
  ghost function Climbed(
      g: Graph, start: map<NodeId, seq<NodeId>>, owner: NodeId, child: Node, prefix: string): seq<NodeId> {
    if Owns(g, owner, child) && !Pending(owner, prefix) then Get(start, owner) + [child.id] else Get(start, owner)
  }

  /** One rung of the climb: the definition found under `prefix`, if it encloses the child, gains it. */
  function Rung(found: Option<Node>, nested: map<NodeId, seq<NodeId>>, child: Node): map<NodeId, seq<NodeId>> {
    if EnclosedBy(found, child) then nested[found.value.id := Get(nested, found.value.id) + [child.id]] else nested
  }

  lemma RungAdvances(
      g: Graph, start: map<NodeId, seq<NodeId>>, nested: map<NodeId, seq<NodeId>>, child: Node, prefix: string,
      owner: NodeId)
    requires DottedPrefix(prefix, child.id.qualifiedName)
    requires Get(nested, owner) == Climbed(g, start, owner, child, prefix)
    ensures var found := Lexical(g.nodes, child.id.origin, child.id.mod, prefix);
            Get(Rung(found, nested, child), owner) == Climbed(g, start, owner, child, PartitionHead(prefix))
  {
    ClimbStep(owner, prefix);
    var found := Lexical(g.nodes, child.id.origin, child.id.mod, prefix);
    if owner.qualifiedName == prefix {
      assert Owns(g, owner, child) <==> EnclosedBy(found, child) && found.value.id == owner;
    }
  }

  /** Append one child to every definition that encloses it. */
  method ClimbPrefixes(
      g: Graph, names: NameIndex, start: map<NodeId, seq<NodeId>>, child: Node)
    returns (nested: map<NodeId, seq<NodeId>>)
    requires NamesOf(names, g.nodes)
    ensures forall owner :: Get(nested, owner) == if Owns(g, owner, child)
            then Get(start, owner) + [child.id] else Get(start, owner)
  {
    nested := start;
    var name := child.id.qualifiedName;
    var prefix := PartitionHead(name);
    forall owner: NodeId ensures Get(nested, owner) == Climbed(g, start, owner, child, prefix) {
      HeadIsLongestPrefix(name, owner.qualifiedName);
    }
    HeadIsLongestPrefix(name, prefix);
    while prefix != ""
      invariant prefix != "" ==> DottedPrefix(prefix, name)
      invariant forall owner: NodeId :: Get(nested, owner) == Climbed(g, start, owner, child, prefix)
      decreases |prefix|
    {
      var found := LookUp(names, g.nodes, child.id.origin, child.id.mod, prefix);
      forall owner: NodeId
        ensures Get(Rung(found, nested, child), owner) == Climbed(g, start, owner, child, PartitionHead(prefix))
      {
        RungAdvances(g, start, nested, child, prefix, owner);
      }
      nested := Rung(found, nested, child);
      ghost var higher := prefix;
      prefix := PartitionHead(prefix);
      HeadIsLongestPrefix(higher, prefix);
      if prefix != "" { DottedPrefixTransitive(prefix, higher, name); }
    }
  }

  method LookUp(
      names: NameIndex, ghost nodes: seq<Node>, origin: NodeOrigin, mod: string, name: string)
    returns (found: Option<Node>)
    requires NamesOf(names, nodes)
    ensures found == Lexical(nodes, origin, mod, name)
  {
    var key := (origin, mod, name);
    found := if key in names then Some(names[key]) else None;
  }

  /** Build the ownership index by climbing the dotted prefixes of every node. */
  method BuildOwnerIndex(g: Graph) returns (nested: map<NodeId, seq<NodeId>>)
    ensures forall owner :: Get(nested, owner) == NestedOwners(g, owner)
  {
    var names := BuildNameIndex(g.nodes);
    nested := map[];
    for i := 0 to |g.nodes|
      invariant forall owner :: Get(nested, owner) == OwnedAmong(g, owner, g.nodes[..i])
    {
      assert g.nodes[..i + 1][..i] == g.nodes[..i];
      if g.nodes[i].source.Some? {
        nested := ClimbPrefixes(g, names, nested, g.nodes[i]);
      }
    }
    assert g.nodes[..|g.nodes|] == g.nodes;
  }
}
