/** Canonical shortest call paths: a breadth-first search whose every answer is
    least in (length, lexicographic edge keys) among all call chains. */
module CanonicalPaths {
  import opened Ordering
  import opened GraphModel

  type Path = seq<Edge>
  type Adjacency = map<NodeId, seq<Edge>>

  function CallsFrom(adj: Adjacency, n: NodeId): seq<Edge> {
    if n in adj then adj[n] else []
  }

  /** Each list holds its own node's calls, strictly sorted by edge key. */
  ghost predicate Ordered(adj: Adjacency) {
    && (forall n, e :: e in CallsFrom(adj, n) ==> e.source == n)
    && (forall n, i, j :: 0 <= i < j < |CallsFrom(adj, n)| ==> EdgeLess(CallsFrom(adj, n)[i], CallsFrom(adj, n)[j]))
  }

  /** `path` is a chain of calls from `root` to `n`. */
  predicate CallChain(adj: Adjacency, root: NodeId, path: Path, n: NodeId) {
    if path == [] then n == root
    else
      var last := path[|path| - 1];
      last in CallsFrom(adj, last.source) && last.target == n && CallChain(adj, root, path[..|path| - 1], last.source)
  }

  // ----- The canonical order of paths -----

  predicate Before(a: Path, b: Path) {
    |a| < |b| || (|a| == |b| && Lex(EdgeLess, a, b))
  }

  predicate AtMost(a: Path, b: Path) { a == b || Before(a, b) }

  lemma BeforeTransitive(a: Path, b: Path, c: Path)
    requires Before(a, b) && Before(b, c)
    ensures Before(a, c)
  {
    hide EdgeLess;
    EdgeOrder();
    if |a| == |b| == |c| { LexTransitive(EdgeLess, a, b, c); }
  }

  lemma BeforeIrreflexive(a: Path)
    ensures !Before(a, a)
  {
    hide EdgeLess;
    EdgeOrder();
    LexIrreflexive(EdgeLess, a);
  }

  /** An earlier path stays earlier whatever single call extends the two. */
  lemma BeforeExtends(a: Path, b: Path, x: Edge, y: Edge)
    requires Before(a, b)
    ensures Before(a + [x], b + [y])
  {
    hide EdgeLess;
    EdgeOrder();
    if |a| == |b| { LexExtends(EdgeLess, a, b, [x], [y]); }
  }

  lemma BeforeSibling(a: Path, x: Edge, y: Edge)
    requires EdgeLess(x, y)
    ensures Before(a + [x], a + [y])
  {
    hide EdgeLess;
    EdgeOrder();
    LexCommonPrefix(EdgeLess, a, [x], [y]);
  }

  function Init(a: Path): Path
    requires a != []
  {
    a[..|a| - 1]
  }

  // ----- Least chains -----

  ghost predicate Least(adj: Adjacency, root: NodeId, n: NodeId, path: Path) {
    && path != [] && CallChain(adj, root, path, n)
    && forall c :: c != [] && CallChain(adj, root, c, n) ==> AtMost(path, c)
  }

  ghost predicate Reachable(adj: Adjacency, root: NodeId, n: NodeId) {
    exists c :: c != [] && CallChain(adj, root, c, n)
  }

  lemma LeastIsUnique(adj: Adjacency, root: NodeId, n: NodeId, a: Path, b: Path)
    requires Least(adj, root, n, a) && Least(adj, root, n, b)
    ensures a == b
  {
    hide Before, CallChain;
    if a != b {
      BeforeTransitive(a, b, a);
      BeforeIrreflexive(a);
    }
  }

  // ----- The search -----

  datatype Entry = Entry(node: NodeId, path: Path)

  type Best = map<NodeId, Path>

  /** The calls of a processed entry all have answers no later than through it. */
  ghost predicate Relaxed(adj: Adjacency, best: Best, n: NodeId, path: Path, limit: nat) {
    && (forall e :: e in CallsFrom(adj, n) ==> e.target in best && AtMost(best[e.target], path + [e]))
    && (|path| >= limit ==> CallsFrom(adj, n) == [])
  }

  /** Answers are chains, never empty. */
  ghost predicate Answers(adj: Adjacency, root: NodeId, best: Best) {
    forall n :: n in best ==> best[n] != [] && CallChain(adj, root, best[n], n)
  }

  /** The queue is strictly increasing in canonical order: layered by length and
      sorted within a layer; every answer came from a path before all of it. */
  ghost predicate Layered(root: NodeId, best: Best, queue: seq<Entry>, limit: nat) {
    && (forall i, j :: 0 <= i < j < |queue| ==> Before(queue[i].path, queue[j].path))
    && (forall q :: q in queue ==> q == Entry(root, []) || (q.node in best && best[q.node] == q.path))
    && (forall q :: q in queue ==> |q.path| <= limit)
    && (forall n, q :: n in best && best[n] != [] && q in queue ==> Before(Init(best[n]), q.path))
  }

  /** Whatever is no longer queued is relaxed. */
  ghost predicate Progress(adj: Adjacency, root: NodeId, best: Best, queue: seq<Entry>, limit: nat) {
    && (Entry(root, []) in queue || Relaxed(adj, best, root, [], limit))
    && (forall n :: n in best ==> Entry(n, best[n]) in queue || Relaxed(adj, best, n, best[n], limit))
  }

  function Targets(adj: Adjacency): set<NodeId> {
    set n, e | n in adj && e in adj[n] :: e.target
  }

  /** Any chain that comes before the whole queue already has an answer at most itself. */
  lemma {:induction false} SettledBefore(
      adj: Adjacency, root: NodeId, best: Best, queue: seq<Entry>, limit: nat, bound: Path, c: Path, n: NodeId)
    requires Progress(adj, root, best, queue, limit)
    requires forall q :: q in queue ==> AtMost(bound, q.path)
    requires c != [] && CallChain(adj, root, c, n) && Before(c, bound)
    ensures n in best && AtMost(best[n], c)
    decreases |c|
  {
    hide EdgeLess;
    var e, pre := c[|c| - 1], Init(c);
    assert c == pre + [e];
    assert Before(pre, bound);
    if pre == [] {
      assert Entry(root, []) !in queue by { NotQueued(queue, bound, Entry(root, [])); }
      assert AtMost(best[n], [] + [e]);
    } else {
      SettledBefore(adj, root, best, queue, limit, bound, pre, e.source);
      var b := best[e.source];
      if b != pre { BeforeTransitive(b, pre, bound); }
      NotQueued(queue, bound, Entry(e.source, b));
      assert AtMost(best[n], b + [e]);
      if b != pre { BeforeExtends(b, pre, e, e); }
      if best[n] != b + [e] && b != pre { BeforeTransitive(best[n], b + [e], c); }
    }
  }

  lemma NotQueued(queue: seq<Entry>, bound: Path, x: Entry)
    requires forall q :: q in queue ==> AtMost(bound, q.path)
    requires Before(x.path, bound)
    ensures x !in queue
  {
    hide Before;
    if x in queue {
      if bound != x.path { BeforeTransitive(x.path, bound, x.path); }
      BeforeIrreflexive(x.path);
    }
  }

  /** With an empty queue every chain has an answer at most itself. */
  lemma {:induction false} SettledAll(adj: Adjacency, root: NodeId, best: Best, limit: nat, c: Path, n: NodeId)
    requires Progress(adj, root, best, [], limit)
    requires c != [] && CallChain(adj, root, c, n)
    ensures n in best && AtMost(best[n], c)
  {
    hide EdgeLess;
    var e := c[|c| - 1];
    SettledBefore(adj, root, best, [], limit, c + [e], c, n);
  }

  /** An answer is a minimal chain once nothing is queued. */
  lemma AnswersAreLeast(adj: Adjacency, root: NodeId, best: Best, limit: nat, n: NodeId)
    requires Progress(adj, root, best, [], limit) && Answers(adj, root, best)
    ensures n in best <==> Reachable(adj, root, n)
    ensures n in best ==> Least(adj, root, n, best[n])
  {
    hide CallChain, AtMost, Relaxed;
    forall c | c != [] && CallChain(adj, root, c, n) ensures n in best && AtMost(best[n], c) {
      SettledAll(adj, root, best, limit, c, n);
    }
    if n in best { assert best[n] != [] && CallChain(adj, root, best[n], n); }
  }

  // ----- Processing one entry -----

  /** While the first `i` calls of `cur` have been tried: every answer came from
      a path before `cur`, or is `cur` extended by one of those calls. */
  ghost predicate FromBefore(adj: Adjacency, best: Best, cur: Entry, i: nat)
    requires i <= |CallsFrom(adj, cur.node)|
  {
    forall n :: n in best && best[n] != [] ==>
      Before(Init(best[n]), cur.path) || exists k :: 0 <= k < i && best[n] == cur.path + [CallsFrom(adj, cur.node)[k]]
  }

  ghost predicate Tried(adj: Adjacency, best: Best, cur: Entry, i: nat)
    requires i <= |CallsFrom(adj, cur.node)|
  {
    forall k :: 0 <= k < i ==>
      var e := CallsFrom(adj, cur.node)[k];
      e.target in best && AtMost(best[e.target], cur.path + [e])
  }

  ghost predicate ProgressBut(adj: Adjacency, root: NodeId, best: Best, queue: seq<Entry>, cur: Entry, limit: nat) {
    && (Entry(root, []) in queue || Entry(root, []) == cur || Relaxed(adj, best, root, [], limit))
    && (forall n :: n in best ==>
       Entry(n, best[n]) in queue || Entry(n, best[n]) == cur || Relaxed(adj, best, n, best[n], limit))
  }

  /** What is queued behind `cur`. */
  ghost predicate Behind(best: Best, queue: seq<Entry>, cur: Entry, limit: nat) {
    && (forall i, j :: 0 <= i < j < |queue| ==> Before(queue[i].path, queue[j].path))
    && (forall q :: q in queue ==> Before(cur.path, q.path))
    && (forall q :: q in queue ==> q.node in best && best[q.node] == q.path && |q.path| <= limit)
  }

  ghost predicate Processing(
      adj: Adjacency, root: NodeId, best: Best, queue: seq<Entry>, cur: Entry, limit: nat, i: nat)
    requires i <= |CallsFrom(adj, cur.node)|
  {
    && Ordered(adj) && Answers(adj, root, best) && Behind(best, queue, cur, limit)
    && FromBefore(adj, best, cur, i) && Tried(adj, best, cur, i) && ProgressBut(adj, root, best, queue, cur, limit)
    && CallChain(adj, root, cur.path, cur.node) && |cur.path| < limit
  }

  /** The same-length improvement never fires: a new candidate comes after every answer. */
  lemma CandidateIsLast(
      adj: Adjacency, root: NodeId, best: Best, queue: seq<Entry>, cur: Entry, limit: nat, i: nat, n: NodeId)
    requires i < |CallsFrom(adj, cur.node)| && Processing(adj, root, best, queue, cur, limit, i) && n in best
    ensures Before(best[n], cur.path + [CallsFrom(adj, cur.node)[i]])
    ensures !Before(cur.path + [CallsFrom(adj, cur.node)[i]], best[n])
  {
    hide Before, EdgeLess, CallChain, Relaxed;
    var e := CallsFrom(adj, cur.node)[i];
    var b := best[n];
    if Before(Init(b), cur.path) {
      assert b == Init(b) + [b[|b| - 1]];
      BeforeExtends(Init(b), cur.path, b[|b| - 1], e);
    } else {
      var k :| 0 <= k < i && b == cur.path + [CallsFrom(adj, cur.node)[k]];
      BeforeSibling(cur.path, CallsFrom(adj, cur.node)[k], e);
    }
    if Before(cur.path + [e], b) {
      BeforeTransitive(b, cur.path + [e], b);
      BeforeIrreflexive(b);
    }
  }

  lemma ExtendChain(adj: Adjacency, root: NodeId, path: Path, n: NodeId, e: Edge)
    requires Ordered(adj) && CallChain(adj, root, path, n) && e in CallsFrom(adj, n)
    ensures CallChain(adj, root, path + [e], e.target)
  {
    assert (path + [e])[..|path|] == path;
  }

  lemma RelaxedGrows(adj: Adjacency, best: Best, best': Best, n: NodeId, path: Path, limit: nat)
    requires Relaxed(adj, best, n, path, limit)
    requires forall k :: k in best ==> k in best' && best'[k] == best[k]
    ensures Relaxed(adj, best', n, path, limit)
  {
    hide AtMost;
  }

  lemma BehindGrows(best: Best, queue: seq<Entry>, cur: Entry, limit: nat, q: Entry)
    requires Behind(best, queue, cur, limit)
    requires forall n :: n in best ==> Before(best[n], q.path)
    requires q.node !in best && Before(cur.path, q.path) && |q.path| <= limit
    ensures Behind(best[q.node := q.path], queue + [q], cur, limit)
  {
    hide Before;
    var queue' := queue + [q];
    forall i, j | 0 <= i < j < |queue'| ensures Before(queue'[i].path, queue'[j].path) {
      if j == |queue| {
        assert queue[i] in queue;
        assert best[queue[i].node] == queue[i].path;
      }
    }
  }

  lemma ProgressGrows(adj: Adjacency, root: NodeId, best: Best, queue: seq<Entry>, cur: Entry, limit: nat, q: Entry)
    requires ProgressBut(adj, root, best, queue, cur, limit) && q.node !in best
    ensures ProgressBut(adj, root, best[q.node := q.path], queue + [q], cur, limit)
  {
    hide Relaxed;
    var best' := best[q.node := q.path];
    if Relaxed(adj, best, root, [], limit) { RelaxedGrows(adj, best, best', root, [], limit); }
    forall n | n in best'
      ensures Entry(n, best'[n]) in queue + [q] || Entry(n, best'[n]) == cur || Relaxed(adj, best', n, best'[n], limit)
    {
      if n != q.node && Relaxed(adj, best, n, best[n], limit) { RelaxedGrows(adj, best, best', n, best[n], limit); }
    }
  }

  /** A call to a node without an answer. */
  lemma ProcessNew(adj: Adjacency, root: NodeId, best: Best, queue: seq<Entry>, cur: Entry, limit: nat, i: nat)
    requires i < |CallsFrom(adj, cur.node)| && Processing(adj, root, best, queue, cur, limit, i)
    requires CallsFrom(adj, cur.node)[i].target !in best
    ensures var e := CallsFrom(adj, cur.node)[i];
            var path := cur.path + [e];
            Processing(adj, root, best[e.target := path], queue + [Entry(e.target, path)], cur, limit, i + 1)
  {
    hide Before, EdgeLess, CallChain, Relaxed, Ordered, ProgressBut, Behind;
    var e := CallsFrom(adj, cur.node)[i];
    var path := cur.path + [e];
    var q := Entry(e.target, path);
    var best' := best[e.target := path];
    forall n | n in best ensures Before(best[n], path) { CandidateIsLast(adj, root, best, queue, cur, limit, i, n); }
    assert Before(cur.path, path) by { LongerIsLater(cur.path, path); }
    BehindGrows(best, queue, cur, limit, q);
    ProgressGrows(adj, root, best, queue, cur, limit, q);
    ExtendChain(adj, root, cur.path, cur.node, e);
    assert path == cur.path + [CallsFrom(adj, cur.node)[i]];
    assert FromBefore(adj, best', cur, i + 1) by {
      forall n | n in best' && best'[n] != []
        ensures Before(Init(best'[n]), cur.path) ||
                exists k :: 0 <= k < i + 1 && best'[n] == cur.path + [CallsFrom(adj, cur.node)[k]]
      {
      }
    }
    forall k | 0 <= k < i + 1
      ensures var x := CallsFrom(adj, cur.node)[k]; x.target in best' && AtMost(best'[x.target], cur.path + [x])
    {
      assert k < i ==> CallsFrom(adj, cur.node)[k].target in best;
    }
  }

  lemma LongerIsLater(a: Path, b: Path)
    requires |a| < |b|
    ensures Before(a, b)
  {
  }

  /** A call to a node that already has an answer changes nothing. */
  lemma ProcessKnown(adj: Adjacency, root: NodeId, best: Best, queue: seq<Entry>, cur: Entry, limit: nat, i: nat)
    requires i < |CallsFrom(adj, cur.node)| && Processing(adj, root, best, queue, cur, limit, i)
    requires CallsFrom(adj, cur.node)[i].target in best
    ensures Processing(adj, root, best, queue, cur, limit, i + 1)
  {
    hide Before, EdgeLess, CallChain, Relaxed, Ordered, ProgressBut, Behind;
    var e := CallsFrom(adj, cur.node)[i];
    CandidateIsLast(adj, root, best, queue, cur, limit, i, e.target);
  }

  lemma ProcessedLayers(
      adj: Adjacency, root: NodeId, best: Best, queue: seq<Entry>, cur: Entry, limit: nat, n: NodeId, q: Entry)
    requires Processing(adj, root, best, queue, cur, limit, |CallsFrom(adj, cur.node)|)
    requires n in best && best[n] != [] && q in queue
    ensures Before(Init(best[n]), q.path)
  {
    hide Before, EdgeLess, CallChain, Ordered, AtMost, ProgressBut, Answers, Tried;
    if Before(Init(best[n]), cur.path) {
      BeforeTransitive(Init(best[n]), cur.path, q.path);
    } else {
      var k :| 0 <= k < |CallsFrom(adj, cur.node)| && best[n] == cur.path + [CallsFrom(adj, cur.node)[k]];
      assert Init(best[n]) == cur.path;
    }
  }

  lemma ProcessedRelaxed(adj: Adjacency, root: NodeId, best: Best, queue: seq<Entry>, cur: Entry, limit: nat)
    requires Processing(adj, root, best, queue, cur, limit, |CallsFrom(adj, cur.node)|)
    ensures Relaxed(adj, best, cur.node, cur.path, limit)
  {
    hide Before, EdgeLess, CallChain, Ordered, AtMost, ProgressBut, Answers, FromBefore, Behind;
    forall e | e in CallsFrom(adj, cur.node) ensures e.target in best && AtMost(best[e.target], cur.path + [e]) {
      var k :| 0 <= k < |CallsFrom(adj, cur.node)| && CallsFrom(adj, cur.node)[k] == e;
    }
  }

  /** After its last call an entry is relaxed, and the queue is layered again. */
  lemma ProcessDone(adj: Adjacency, root: NodeId, best: Best, queue: seq<Entry>, cur: Entry, limit: nat)
    requires Processing(adj, root, best, queue, cur, limit, |CallsFrom(adj, cur.node)|)
    requires cur == Entry(root, []) || (cur.node in best && best[cur.node] == cur.path)
    ensures Layered(root, best, queue, limit) && Progress(adj, root, best, queue, limit)
  {
    hide Before, EdgeLess, CallChain, Ordered, AtMost, Answers, FromBefore, Tried, Relaxed;
    ProcessedRelaxed(adj, root, best, queue, cur, limit);
    forall n, q | n in best && best[n] != [] && q in queue ensures Before(Init(best[n]), q.path) {
      ProcessedLayers(adj, root, best, queue, cur, limit, n, q);
    }
  }

  ghost predicate Searching(adj: Adjacency, root: NodeId, best: Best, queue: seq<Entry>, limit: nat) {
    Ordered(adj) && Answers(adj, root, best) && Layered(root, best, queue, limit) &&
        Progress(adj, root, best, queue, limit)
  }

  lemma BehindFirst(root: NodeId, best: Best, queue: seq<Entry>, limit: nat)
    requires Layered(root, best, queue, limit) && queue != []
    ensures Behind(best, queue[1..], queue[0], limit)
  {
    hide Before;
    var cur, rest := queue[0], queue[1..];
    forall q | q in rest ensures Before(cur.path, q.path) && q in queue && q != Entry(root, []) {
      var k :| 0 <= k < |rest| && rest[k] == q;
      assert queue[k + 1] == q;
      NothingBeforeEmpty(cur.path);
    }
    forall i, j | 0 <= i < j < |rest| ensures Before(rest[i].path, rest[j].path) {
      assert rest[i] == queue[i + 1] && rest[j] == queue[j + 1];
    }
  }

  lemma ProcessStart(adj: Adjacency, root: NodeId, best: Best, queue: seq<Entry>, limit: nat)
    requires Searching(adj, root, best, queue, limit) && queue != [] && |queue[0].path| < limit
    ensures Processing(adj, root, best, queue[1..], queue[0], limit, 0)
  {
    hide Before, EdgeLess, Ordered, Relaxed, Behind;
    var cur := queue[0];
    BehindFirst(root, best, queue, limit);
    assert cur in queue && queue == [cur] + queue[1..];
    assert FromBefore(adj, best, cur, 0);
    assert ProgressBut(adj, root, best, queue[1..], cur, limit);
  }

  lemma NothingBeforeEmpty(a: Path)
    ensures !Before(a, [])
  {
  }

  lemma LayeredTail(root: NodeId, best: Best, queue: seq<Entry>, limit: nat)
    requires Layered(root, best, queue, limit) && queue != []
    ensures Layered(root, best, queue[1..], limit)
  {
    hide Before;
    assert queue == [queue[0]] + queue[1..];
  }

  lemma ProgressTail(adj: Adjacency, root: NodeId, best: Best, queue: seq<Entry>, limit: nat)
    requires Progress(adj, root, best, queue, limit) && queue != []
    requires Relaxed(adj, best, queue[0].node, queue[0].path, limit)
    ensures Progress(adj, root, best, queue[1..], limit)
  {
    hide Relaxed;
    assert queue == [queue[0]] + queue[1..];
  }

  /** A dead end at the length limit is relaxed as it stands. */
  lemma ProcessLeaf(adj: Adjacency, root: NodeId, best: Best, queue: seq<Entry>, limit: nat)
    requires Searching(adj, root, best, queue, limit) && queue != [] && CallsFrom(adj, queue[0].node) == []
    ensures Searching(adj, root, best, queue[1..], limit)
  {
    hide Before, Ordered, AtMost, Answers, Layered, Progress;
    LayeredTail(root, best, queue, limit);
    ProgressTail(adj, root, best, queue, limit);
  }

  /** The entry on which the search gives up is the least chain to its node, and has used up the limit. */
  lemma GivingUp(adj: Adjacency, root: NodeId, best: Best, queue: seq<Entry>, limit: nat)
    requires Searching(adj, root, best, queue, limit) && queue != [] && limit > 0 && |queue[0].path| >= limit
    ensures |queue[0].path| == limit && Least(adj, root, queue[0].node, queue[0].path)
  {
    hide Before, EdgeLess, Ordered, Relaxed;
    var cur := queue[0];
    assert cur in queue;
    assert best[cur.node] == cur.path;
    forall q | q in queue ensures AtMost(cur.path, q.path) {
      var k :| 0 <= k < |queue| && queue[k] == q;
    }
    forall c | c != [] && CallChain(adj, root, c, cur.node) ensures AtMost(cur.path, c) {
      PathsCompare(c, cur.path);
      if Before(c, cur.path) {
        SettledBefore(adj, root, best, queue, limit, cur.path, c, cur.node);
        if cur.path != c { BeforeTransitive(cur.path, c, cur.path); }
        BeforeIrreflexive(cur.path);
      }
    }
  }

  lemma PathsCompare(a: Path, b: Path)
    ensures Before(a, b) || a == b || Before(b, a)
  {
    hide EdgeLess;
    EdgeOrder();
    LexTotal(EdgeLess, a, b);
  }

  // ----- The search itself -----

  /** Try the calls of one popped entry. */
  method TryCalls(adj: Adjacency, ghost root: NodeId, best0: Best, queue0: seq<Entry>, cur: Entry, ghost limit: nat)
    returns (best: Best, queue: seq<Entry>)
    requires Processing(adj, root, best0, queue0, cur, limit, 0)
    requires cur == Entry(root, []) || (cur.node in best0 && best0[cur.node] == cur.path)
    requires best0.Keys <= Targets(adj)
    ensures Searching(adj, root, best, queue, limit)
    ensures best.Keys <= Targets(adj)
    ensures |queue| + |best0| == |queue0| + |best|
  {
    hide Processing, Searching;
    best, queue := best0, queue0;
    var calls := CallsFrom(adj, cur.node);
    for i := 0 to |calls|
      invariant Processing(adj, root, best, queue, cur, limit, i)
      invariant cur == Entry(root, []) || (cur.node in best && best[cur.node] == cur.path)
      invariant best.Keys <= Targets(adj)
      invariant |queue| + |best0| == |queue0| + |best|
    {
      var e := calls[i];
      var candidate := cur.path + [e];
      assert e.target in Targets(adj);
      if e.target in best {
        CandidateIsLast(adj, root, best, queue, cur, limit, i, e.target);
        ProcessKnown(adj, root, best, queue, cur, limit, i);
      } else {
        ProcessNew(adj, root, best, queue, cur, limit, i);
      }
      if e.target !in best || Before(candidate, best[e.target]) {
        best := best[e.target := candidate];
        queue := queue + [Entry(e.target, candidate)];
      }
    }
    ProcessDone(adj, root, best, queue, cur, limit);
    assert Searching(adj, root, best, queue, limit) by { ProcessingFacts(adj, root, best, queue, cur, limit, |calls|); }
  }

  lemma ProcessingFacts(adj: Adjacency, root: NodeId, best: Best, queue: seq<Entry>, cur: Entry, limit: nat, i: nat)
    requires i <= |CallsFrom(adj, cur.node)| && Processing(adj, root, best, queue, cur, limit, i)
    requires Layered(root, best, queue, limit) && Progress(adj, root, best, queue, limit)
    ensures Searching(adj, root, best, queue, limit)
  {
  }

  datatype Outcome = Found(paths: Best) | LimitExceeded

  /** Some node's least chain uses up the limit and the node still makes calls. */
  ghost predicate TooDeep(adj: Adjacency, root: NodeId, limit: nat) {
    exists n, path :: Least(adj, root, n, path) && |path| >= limit && CallsFrom(adj, n) != []
  }

  /** Canonical paths from `root`: an answer for exactly the other nodes some call
      chain reaches, each the least chain; refused exactly when a least chain
      reaches the limit at a node that calls on. Each node is queued once, and
      the root at most once more, so pops number one more than the answers. */
  method FindPaths(root: NodeId, adj: Adjacency, limit: nat) returns (r: Outcome, ghost pops: nat)
    requires Ordered(adj) && limit > 0
    ensures r.LimitExceeded? <==> TooDeep(adj, root, limit)
    ensures r.Found? ==> forall n :: n in r.paths <==> n != root && Reachable(adj, root, n)
    ensures r.Found? ==> forall n :: n in r.paths ==> Least(adj, root, n, r.paths[n])
    ensures r.Found? ==> |r.paths| + 1 <= pops <= |r.paths| + 2
    ensures pops <= |Targets(adj)| + 1
  {
    hide Searching, Processing, Least, Ordered, Reachable, Targets;
    var best: Best := map[];
    var queue := [Entry(root, [])];
    pops := 0;
    assert Searching(adj, root, best, queue, limit) by { SearchStart(adj, root, limit); }
    while queue != []
      invariant Searching(adj, root, best, queue, limit)
      invariant best.Keys <= Targets(adj)
      invariant pops + |queue| == 1 + |best|
      decreases |Targets(adj)| - |best| + |queue|
    {
      KeysBound(best, Targets(adj));
      var cur := queue[0];
      var rest := queue[1..];
      pops := pops + 1;
      if |cur.path| >= limit {
        if CallsFrom(adj, cur.node) != [] {
          GivingUp(adj, root, best, queue, limit);
          return LimitExceeded, pops;
        }
        ProcessLeaf(adj, root, best, queue, limit);
        queue := rest;
      } else {
        ProcessStart(adj, root, best, queue, limit);
        CurrentAnswer(adj, root, best, queue, limit);
        best, queue := TryCalls(adj, root, best, rest, cur, limit);
        KeysBound(best, Targets(adj));
      }
    }
    KeysBound(best, Targets(adj));
    SearchConcludes(adj, root, best, limit);
    RemoveRoot(best, root);
    r := Found(best - {root});
  }

  lemma SearchConcludes(adj: Adjacency, root: NodeId, best: Best, limit: nat)
    requires Searching(adj, root, best, [], limit)
    ensures !TooDeep(adj, root, limit)
    ensures forall n :: n in best <==> Reachable(adj, root, n)
    ensures forall n :: n in best ==> Least(adj, root, n, best[n])
  {
    hide Least, Ordered, Reachable, Answers;
    forall n ensures (n in best <==> Reachable(adj, root, n)) && (n in best ==> Least(adj, root, n, best[n])) {
      AnswersAreLeast(adj, root, best, limit, n);
    }
    forall n, path | Least(adj, root, n, path) && |path| >= limit ensures CallsFrom(adj, n) == [] {
      LeastIsChain(adj, root, n, path);
      LeastIsUnique(adj, root, n, path, best[n]);
    }
  }

  lemma LeastIsChain(adj: Adjacency, root: NodeId, n: NodeId, path: Path)
    requires Least(adj, root, n, path)
    ensures Reachable(adj, root, n)
  {
  }

  lemma SearchStart(adj: Adjacency, root: NodeId, limit: nat)
    requires Ordered(adj)
    ensures Searching(adj, root, map[], [Entry(root, [])], limit)
  {
  }

  lemma CurrentAnswer(adj: Adjacency, root: NodeId, best: Best, queue: seq<Entry>, limit: nat)
    requires Searching(adj, root, best, queue, limit) && queue != []
    ensures queue[0] == Entry(root, []) || (queue[0].node in best && best[queue[0].node] == queue[0].path)
  {
    assert queue[0] in queue;
  }

  lemma KeysBound(best: Best, targets: set<NodeId>)
    requires best.Keys <= targets
    ensures |best| <= |targets|
  {
    SubsetSize(best.Keys, targets);
    assert |best| == |best.Keys|;
  }

  lemma RemoveRoot(best: Best, root: NodeId)
    ensures |best| - 1 <= |best - {root}| <= |best|
  {
    var rest := best - {root};
    assert rest.Keys == best.Keys - {root};
    assert |rest| == |rest.Keys| && |best| == |best.Keys|;
  }
}
