/** Byte spans: from (line, column) references to slices of a file. */
module SourceSpan {
  import opened GraphModel
  import opened OwnerIndex

  type Byte = x: int | 0 <= x < 256 witness 0
  type Bytes = seq<Byte>

  const LF: Byte := 10
  const CR: Byte := 13

  datatype SpanError = LineOutside | ColumnOutside | EndBeforeStart
  datatype SpanResult = Ok(bytes: Bytes) | Err(error: SpanError)

  /** The length of the first line with its terminator: LF, CR, or CR LF. */
  function FirstLine(data: Bytes): (n: nat)
    requires data != []
    ensures 1 <= n <= |data|
  {
    if data[0] == LF then 1
    else if data[0] == CR then (if |data| > 1 && data[1] == LF then 2 else 1)
    else if |data| == 1 then 1
    else 1 + FirstLine(data[1..])
  }

  /** `data.splitlines(keepends=True)` */
  function SplitLines(data: Bytes): seq<Bytes>
    decreases |data|
  {
    if data == [] then []
    else
      var n := FirstLine(data);
      [data[..n]] + SplitLines(data[n..])
  }

  /** The lines a reference may name: an empty file has one, and a final terminator opens another. */
  function Lines(data: Bytes): (lines: seq<Bytes>)
    ensures |lines| >= 1
  {
    if data == [] then [[]]
    else if data[|data| - 1] == LF || data[|data| - 1] == CR then SplitLines(data) + [[]]
    else SplitLines(data)
  }

  /** Where line `k` begins. */
  function Offset(lines: seq<Bytes>, k: nat): nat
    requires k <= |lines|
  {
    if k == 0 then 0 else Offset(lines, k - 1) + |lines[k - 1]|
  }

  function Joined(lines: seq<Bytes>): Bytes {
    if lines == [] then [] else lines[0] + Joined(lines[1..])
  }

  lemma SplitLinesUnfolds(data: Bytes)
    requires data != []
    ensures SplitLines(data) == [data[..FirstLine(data)]] + SplitLines(data[FirstLine(data)..])
  {
    hide FirstLine;
  }

  lemma JoinedUnfolds(line: Bytes, rest: seq<Bytes>)
    ensures Joined([line] + rest) == line + Joined(rest)
  {
    assert ([line] + rest)[1..] == rest;
  }

  lemma {:induction false} SplitLinesJoin(data: Bytes)
    ensures Joined(SplitLines(data)) == data
    decreases |data|
  {
    hide FirstLine, SplitLines, Joined;
    if data == [] {
      NoLines();
    } else {
      var n := FirstLine(data);
      SplitLinesJoin(data[n..]);
      SplitLinesUnfolds(data);
      JoinedUnfolds(data[..n], SplitLines(data[n..]));
      assert data == data[..n] + data[n..];
    }
  }

  lemma NoLines()
    ensures Joined(SplitLines([])) == []
  {
  }

  lemma {:induction false} JoinedAppend(lines: seq<Bytes>, more: seq<Bytes>)
    ensures Joined(lines + more) == Joined(lines) + Joined(more)
  {
    if lines == [] {
      assert lines + more == more;
    } else {
      assert (lines + more)[1..] == lines[1..] + more;
      JoinedAppend(lines[1..], more);
    }
  }

  /** Splitting loses no byte, whatever the terminators. */
  lemma LinesJoin(data: Bytes)
    ensures Joined(Lines(data)) == data
  {
    SplitLinesJoin(data);
    var empty: Bytes := [];
    assert [empty][1..] == [];
    assert Joined([empty]) == [];
    JoinedAppend(SplitLines(data), [empty]);
  }

  lemma {:induction false} OffsetTail(lines: seq<Bytes>, k: nat)
    requires 1 <= k <= |lines|
    ensures Offset(lines, k) == |lines[0]| + Offset(lines[1..], k - 1)
    decreases k
  {
    if k > 1 { OffsetTail(lines, k - 1); }
  }

  lemma {:induction false} OffsetOfJoined(lines: seq<Bytes>)
    ensures Offset(lines, |lines|) == |Joined(lines)|
  {
    if lines != [] {
      OffsetTail(lines, |lines|);
      OffsetOfJoined(lines[1..]);
    }
  }

  lemma {:induction false} OffsetMonotone(lines: seq<Bytes>, i: nat, j: nat)
    requires i <= j <= |lines|
    ensures Offset(lines, i) <= Offset(lines, j)
    decreases j - i
  {
    if i < j { OffsetMonotone(lines, i, j - 1); }
  }

  // ----- Where lines begin -----

  /** A line ends after LF, and after a CR that no LF follows. */
  predicate BreakAfter(data: Bytes, k: nat)
    requires k < |data|
  {
    data[k] == LF || (data[k] == CR && (k + 1 == |data| || data[k + 1] != LF))
  }

  lemma {:induction false} FirstLineBreaks(data: Bytes)
    requires data != []
    ensures forall k :: 0 <= k < FirstLine(data) - 1 ==> !BreakAfter(data, k)
    ensures FirstLine(data) < |data| ==> BreakAfter(data, FirstLine(data) - 1)
    decreases |data|
  {
    if data[0] != LF && data[0] != CR && |data| > 1 {
      var rest := data[1..];
      FirstLineBreaks(rest);
      forall k | 0 <= k < |rest| ensures BreakAfter(data, k + 1) == BreakAfter(rest, k) {}
      forall k | 0 <= k < FirstLine(data) - 1 ensures !BreakAfter(data, k) {
        if k > 0 { assert !BreakAfter(rest, k - 1); }
      }
    }
  }

  /** The bytes from `from` to `to` are one line: it begins the data or follows a break,
      and has no break within. */
  ghost predicate OneLine(data: Bytes, from: nat, to: nat) {
    && from <= to <= |data|
    && (from == 0 || BreakAfter(data, from - 1))
    && (forall k :: from <= k < to - 1 ==> !BreakAfter(data, k))
  }

  lemma OneLineShifts(data: Bytes, n: nat, from: nat, to: nat)
    requires 0 < n <= |data| && OneLine(data[n..], from, to) && (n < |data| ==> BreakAfter(data, n - 1))
    requires from == 0 ==> n < |data|
    ensures OneLine(data, n + from, n + to)
  {
    var rest := data[n..];
    forall k | 0 <= k < |rest| ensures BreakAfter(data, n + k) == BreakAfter(rest, k) {}
    if from > 0 { assert BreakAfter(data, n + (from - 1)); }
    forall k | n + from <= k < n + to - 1 ensures !BreakAfter(data, k) { assert !BreakAfter(rest, k - n); }
  }

  lemma {:induction false} SplitIntoLines(data: Bytes, k: nat)
    requires k < |SplitLines(data)|
    ensures OneLine(data, Offset(SplitLines(data), k), Offset(SplitLines(data), k + 1))
    decreases |data|
  {
    hide FirstLine, SplitLines, OneLine;
    assert data != [] by { NothingToSplit(data); }
    var n, lines := FirstLine(data), SplitLines(data);
    SplitLinesUnfolds(data);
    FirstLineBreaks(data);
    assert lines[0] == data[..n] && lines[1..] == SplitLines(data[n..]);
    if k == 0 {
      assert Offset(lines, 0) == 0 && Offset(lines, 1) == n;
      assert OneLine(data, 0, n) by { LeadingLine(data, n); }
    } else {
      OffsetTail(lines, k);
      OffsetTail(lines, k + 1);
      SplitIntoLines(data[n..], k - 1);
      assert data[n..] != [] by { NothingToSplit(data[n..]); }
      OneLineShifts(data, n, Offset(lines[1..], k - 1), Offset(lines[1..], k));
    }
  }

  lemma NothingToSplit(data: Bytes)
    ensures data == [] ==> SplitLines(data) == []
  {
  }

  lemma LeadingLine(data: Bytes, n: nat)
    requires n <= |data| && forall k :: 0 <= k < n - 1 ==> !BreakAfter(data, k)
    ensures OneLine(data, 0, n)
  {
  }

  lemma {:induction false} OffsetOfPrefix(lines: seq<Bytes>, more: seq<Bytes>, k: nat)
    requires k <= |lines|
    ensures Offset(lines + more, k) == Offset(lines, k)
  {
    if k > 0 { OffsetOfPrefix(lines, more, k - 1); }
  }

  /** The lines that a reference may name are cut exactly at the breaks: each begins the
      data or follows a break and has none within, and after the last there is none. */
  lemma LinesBreakExactly(data: Bytes, k: nat)
    requires k < |Lines(data)|
    ensures OneLine(data, Offset(Lines(data), k), Offset(Lines(data), k + 1))
    ensures Offset(Lines(data), |Lines(data)|) == |data|
    ensures k == |Lines(data)| - 1 && Offset(Lines(data), k) < |data| ==> !BreakAfter(data, |data| - 1)
  {
    hide SplitLines, Joined;
    LinesJoin(data);
    OffsetOfJoined(Lines(data));
    var lines, empty: Bytes := SplitLines(data), [];
    SplitLinesJoin(data);
    OffsetOfJoined(lines);
    if data == [] {
      assert Offset([empty], 1) == 0 && Offset([empty], 0) == 0;
    } else if k < |lines| {
      SplitIntoLines(data, k);
      OffsetOfPrefix(lines, [empty], k);
      OffsetOfPrefix(lines, [empty], k + 1);
    } else {
      OffsetOfPrefix(lines, [empty], k);
    }
  }

  /** A 1-based line and a 0-based byte column that the file has. */
  predicate InFile(lines: seq<Bytes>, line: int, col: int) {
    1 <= line <= |lines| && 0 <= col <= |lines[line - 1]|
  }

  function Position(lines: seq<Bytes>, line: int, col: int): nat
    requires InFile(lines, line, col)
  {
    Offset(lines, line - 1) + col
  }

  /** Positions of one file are ordered as their (line, column) pairs. */
  lemma PositionMonotone(lines: seq<Bytes>, l1: int, c1: int, l2: int, c2: int)
    requires InFile(lines, l1, c1) && InFile(lines, l2, c2)
    requires !Earlier(l2, c2, l1, c1)
    ensures Position(lines, l1, c1) <= Position(lines, l2, c2)
  {
    if l1 < l2 { OffsetMonotone(lines, l1, l2 - 1); }
  }

  lemma PositionInside(data: Bytes, line: int, col: int)
    requires InFile(Lines(data), line, col)
    ensures Position(Lines(data), line, col) <= |data|
  {
    LinesJoin(data);
    OffsetOfJoined(Lines(data));
    OffsetMonotone(Lines(data), line, |Lines(data)|);
  }

  /** What the extraction promises of any valid reference. */
  function Span(data: Bytes, source: SourceRef): SpanResult
    requires source.Valid()
  {
    var lines := Lines(data);
    if source.startLine > |lines| || source.endLine > |lines| then Err(LineOutside)
    else if !InFile(lines, source.startLine, source.startCol) ||
        !InFile(lines, source.endLine, source.endCol) then Err(ColumnOutside)
    else
      var from := Position(lines, source.startLine, source.startCol);
      var to := Position(lines, source.endLine, source.endCol);
      PositionInside(data, source.startLine, source.startCol);
      PositionInside(data, source.endLine, source.endCol);
      if to < from then Err(EndBeforeStart) else Ok(data[from..to])
  }

  method LineStarts(lines: seq<Bytes>) returns (starts: seq<nat>)
    ensures |starts| == |lines|
    ensures forall k :: 0 <= k < |lines| ==> starts[k] == Offset(lines, k)
  {
    starts := [];
    var offset := 0;
    for i := 0 to |lines|
      invariant |starts| == i && offset == Offset(lines, i)
      invariant forall k :: 0 <= k < i ==> starts[k] == Offset(lines, k)
    {
      starts := starts + [offset];
      offset := offset + |lines[i]|;
    }
  }

  /** Extract a span, accumulating line starts as the program does. */
  method ExtractSpan(data: Bytes, source: SourceRef) returns (r: SpanResult)
    requires source.Valid()
    ensures r == Span(data, source)
  {
    hide Lines, Offset;
    var lines := Lines(data);
    if source.startLine > |lines| || source.endLine > |lines| { return Err(LineOutside); }
    var starts := LineStarts(lines);
    var startLine := lines[source.startLine - 1];
    var endLine := lines[source.endLine - 1];
    if source.startCol > |startLine| || source.endCol > |endLine| { return Err(ColumnOutside); }
    var from := starts[source.startLine - 1] + source.startCol;
    var to := starts[source.endLine - 1] + source.endCol;
    if to < from { return Err(EndBeforeStart); }
    PositionInside(data, source.startLine, source.startCol);
    PositionInside(data, source.endLine, source.endCol);
    return Ok(data[from..to]);
  }

  /** A reference the constructor admits never fails for its end preceding its
      start: it yields bytes exactly when the file has both positions. */
  lemma SpanExactness(data: Bytes, source: SourceRef)
    requires source.Valid()
    ensures Span(data, source).Ok? <==>
            InFile(Lines(data), source.startLine, source.startCol) && InFile(Lines(data), source.endLine, source.endCol)
    ensures Span(data, source) != Err(EndBeforeStart)
  {
    hide Lines, Offset;
    var lines := Lines(data);
    if InFile(lines, source.startLine, source.startCol) && InFile(lines, source.endLine, source.endCol) {
      PositionMonotone(lines, source.startLine, source.startCol, source.endLine, source.endCol);
    }
  }

  ghost predicate SliceOf(inner: Bytes, outer: Bytes) {
    exists before: Bytes, after: Bytes :: outer == before + inner + after
  }

  /** The lexicographic containment test implies byte containment: the bytes of
      a nested definition are a contiguous slice of those around it. */
  lemma EnclosedBytes(data: Bytes, outer: SourceRef, inner: SourceRef)
    requires outer.Valid() && inner.Valid() && outer.Encloses(inner)
    requires Span(data, outer).Ok? && Span(data, inner).Ok?
    ensures SliceOf(Span(data, inner).bytes, Span(data, outer).bytes)
  {
    hide Lines, Offset;
    SpanExactness(data, outer);
    SpanExactness(data, inner);
    var lines := Lines(data);
    PositionMonotone(lines, outer.startLine, outer.startCol, inner.startLine, inner.startCol);
    PositionMonotone(lines, inner.endLine, inner.endCol, outer.endLine, outer.endCol);
    PositionInside(data, outer.endLine, outer.endCol);
    var a, z := Position(lines, outer.startLine, outer.startCol), Position(lines, outer.endLine, outer.endCol);
    var b, y := Position(lines, inner.startLine, inner.startCol), Position(lines, inner.endLine, inner.endCol);
    PositionMonotone(lines, inner.startLine, inner.startCol, inner.endLine, inner.endCol);
    assert data[a..z] == data[a..b] + data[b..y] + data[y..z];
  }

  /** So including a definition includes the bytes of everything the ownership index nests in it. */
  lemma NestedBytes(g: Graph, data: Bytes, owner: Node, child: Node)
    requires WellFormed(g) && owner in g.nodes && child in g.nodes && child.id in NestedOwners(g, owner.id)
    ensures owner.source.Some? && child.source.Some? && owner.source.value.Valid() && child.source.value.Valid()
    ensures Span(data, owner.source.value).Ok? && Span(data, child.source.value).Ok? ==>
            SliceOf(Span(data, child.source.value).bytes, Span(data, owner.source.value).bytes)
  {
    hide Span, SliceOf;
    OwnedAmongMembers(g, owner.id, g.nodes, child.id);
    var k :| 0 <= k < |g.nodes| && g.nodes[k].id == child.id && Owns(g, owner.id, g.nodes[k]);
    SameNode(g, child, g.nodes[k]);
    var found := Lexical(g.nodes, child.id.origin, child.id.mod, owner.id.qualifiedName);
    SameNode(g, owner, found.value);
    if Span(data, owner.source.value).Ok? && Span(data, child.source.value).Ok? {
      EnclosedBytes(data, owner.source.value, child.source.value);
    }
  }

  lemma SameNode(g: Graph, a: Node, b: Node)
    requires WellFormed(g) && a in g.nodes && b in g.nodes && a.id == b.id
    ensures a == b && (a.source.Some? ==> a.source.value.Valid())
  {
    var i :| 0 <= i < |g.nodes| && g.nodes[i] == a;
    var j :| 0 <= j < |g.nodes| && g.nodes[j] == b;
  }
}
