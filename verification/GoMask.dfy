/** The Go comment and literal masker: a scanner that blanks everything that is not code. */
module GoMask {

  datatype Mode = Code | LineComment | BlockComment | Quoted | Rune | Raw

  function Blank(c: char): char { if c == '\n' then '\n' else ' ' }

  predicate Opens(s: string, second: char) { |s| >= 2 && s[0] == '/' && s[1] == second }

  predicate Closes(s: string) { |s| >= 2 && s[0] == '*' && s[1] == '/' }

  /** One step in code that is not the start of a comment. */
  function EnterFrom(c: char): Mode {
    if c == '"' then Quoted else if c == '\'' then Rune else if c == '`' then Raw else Code
  }

  function CodeChar(c: char): char { if EnterFrom(c).Code? then c else ' ' }

  /** Which quote ends an interpreted string or rune literal: for the program
      either quote ends either, in Go a literal ends only at its own kind. */
  datatype Rule = AnyQuote | OwnQuote

  predicate Ends(rule: Rule, m: Mode, c: char) {
    match rule
    case AnyQuote => c == '"' || c == '\''
    case OwnQuote => (m.Quoted? && c == '"') || (m.Rune? && c == '\'')
  }

  /** What one turn of the scan writes for the next one or two characters, and the state after them. */
  datatype Turn = Turn(emitted: string, mode: Mode, escaped: bool)

  function TurnOf(rule: Rule, m: Mode, escaped: bool, s: string): (t: Turn)
    requires s != []
    ensures 1 <= |t.emitted| <= 2 && |t.emitted| <= |s|
  {
    match m
    case Code =>
      if Opens(s, '/') then Turn([' ', ' '], LineComment, escaped)
      else if Opens(s, '*') then Turn([' ', ' '], BlockComment, escaped)
      else Turn([CodeChar(s[0])], EnterFrom(s[0]), escaped)
    case LineComment => Turn([Blank(s[0])], if s[0] == '\n' then Code else LineComment, escaped)
    case BlockComment =>
      if Closes(s) then Turn([' ', ' '], Code, escaped) else Turn([Blank(s[0])], BlockComment, escaped)
    case Raw => Turn([Blank(s[0])], if s[0] == '`' then Code else Raw, escaped)
    case _ =>
      if s[0] == '\\' && !escaped then Turn([Blank(s[0])], m, true)
      else if Ends(rule, m, s[0]) && !escaped then Turn([Blank(s[0])], Code, escaped)
      else Turn([Blank(s[0])], m, false)
  }

  /** The masked text of `s`, scanned from the given mode. */
  function Mask(rule: Rule, m: Mode, escaped: bool, s: string): string
    decreases |s|
  {
    if s == [] then []
    else
      var t := TurnOf(rule, m, escaped, s);
      t.emitted + Mask(rule, t.mode, t.escaped, s[|t.emitted|..])
  }

  lemma MaskNothing(rule: Rule, m: Mode, escaped: bool)
    ensures Mask(rule, m, escaped, []) == []
  {
  }

  lemma MaskTurn(rule: Rule, m: Mode, escaped: bool, s: string)
    requires s != []
    ensures var t := TurnOf(rule, m, escaped, s);
            Mask(rule, m, escaped, s) == t.emitted + Mask(rule, t.mode, t.escaped, s[|t.emitted|..])
  {
  }

  // ----- What masking means: the pieces of a text -----

  /** A lexical piece of a text. */
  datatype Piece = Plainly(text: string) | Line(text: string) | Block(text: string) | RawText(text: string)
                 | Literal(text: string)

  /** Nothing in code opens a literal, and nothing, together with what follows, opens a comment. */
  ghost predicate IsCode(text: string, rest: string) {
    && (forall k :: 0 <= k < |text| ==> text[k] != '"' && text[k] != '\'' && text[k] != '`')
    && (forall k :: 0 <= k < |text| && text[k] == '/' && k + 1 < |text + rest| ==>
          (text + rest)[k + 1] != '/' && (text + rest)[k + 1] != '*')
  }

  /** The rest of a line comment: up to and including the first line break, or to the end of the text. */
  ghost predicate IsLine(body: string, rest: string) {
    && (forall k :: 0 <= k < |body| - 1 ==> body[k] != '\n')
    && (rest == [] || (|body| >= 1 && body[|body| - 1] == '\n'))
  }

  /** The rest of a block comment: through the first closing pair, or to the end of the text. */
  ghost predicate IsBlock(body: string, rest: string) {
    && (forall k :: 0 <= k < |body| - 2 ==> !(body[k] == '*' && body[k + 1] == '/'))
    && (rest == [] || (|body| >= 2 && body[|body| - 2] == '*' && body[|body| - 1] == '/'))
  }

  /** The rest of a raw string: through the first backtick, or to the end of the text. */
  ghost predicate IsRaw(body: string, rest: string) {
    && (forall k :: 0 <= k < |body| - 1 ==> body[k] != '`')
    && (rest == [] || (|body| >= 1 && body[|body| - 1] == '`'))
  }

  /** A character is escaped by a backslash before it that is not itself escaped. */
  predicate EscapedAt(first: bool, body: string, k: nat)
    requires k <= |body|
  {
    if k == 0 then first else body[k - 1] == '\\' && !EscapedAt(first, body, k - 1)
  }

  /** The quote that closes a literal: either one for the program, the one it began with for Go. */
  predicate Shuts(rule: Rule, open: char, c: char) {
    if rule.AnyQuote? then c == '"' || c == '\'' else c == open
  }

  /** The rest of a literal: through the first unescaped quote that closes it, or to the end of the text. */
  ghost predicate IsLiteral(rule: Rule, open: char, first: bool, body: string, rest: string) {
    && (forall k :: 0 <= k < |body| - 1 ==> !Shuts(rule, open, body[k]) || EscapedAt(first, body, k))
    && (rest == [] ||
        (|body| >= 1 && Shuts(rule, open, body[|body| - 1]) && !EscapedAt(first, body, |body| - 1)))
  }

  /** A piece is what it is called, given the text that follows it. */
  ghost predicate Lexes(rule: Rule, piece: Piece, rest: string) {
    var text := piece.text;
    match piece
    case Plainly(_) => text != [] && IsCode(text, rest)
    case Line(_) => "//" <= text && IsLine(text[2..], rest)
    case Block(_) => "/*" <= text && IsBlock(text[2..], rest)
    case RawText(_) => "`" <= text && IsRaw(text[1..], rest)
    case Literal(_) => ("\"" <= text || "'" <= text) && IsLiteral(rule, text[0], false, text[1..], rest)
  }

  /** The text is made of these pieces, one after the other. */
  ghost predicate Split(rule: Rule, pieces: seq<Piece>, s: string) {
    if pieces == [] then s == []
    else
      && pieces[0].text <= s
      && Lexes(rule, pieces[0], s[|pieces[0].text|..])
      && Split(rule, pieces[1..], s[|pieces[0].text|..])
  }

  /** Line breaks stay, everything else becomes a space. */
  function Blanked(text: string): string {
    if text == [] then [] else [if text[0] == '\n' then '\n' else ' '] + Blanked(text[1..])
  }

  /** Code as it stands, and blanks and line breaks for everything else. */
  function ShownAs(piece: Piece): string { if piece.Plainly? then piece.text else Blanked(piece.text) }

  function Shown(pieces: seq<Piece>): string {
    if pieces == [] then [] else ShownAs(pieces[0]) + Shown(pieces[1..])
  }

  // ----- Scanning one piece -----

  /** Taking the first character off a body that a rest follows. */
  lemma BodyStep(body: string, rest: string)
    requires body != []
    ensures (body + rest)[0] == body[0] && (body + rest)[1..] == body[1..] + rest
  {
  }

  /** A turn that blanks one character carries what is known of the characters after it. */
  lemma Carry(rule: Rule, m: Mode, escaped: bool, body: string, rest: string, after: string)
    requires body != []
    requires var t := TurnOf(rule, m, escaped, body + rest);
             t.emitted == [Blank(body[0])] && Mask(rule, t.mode, t.escaped, body[1..] + rest) ==
             Blanked(body[1..]) + after
    ensures Mask(rule, m, escaped, body + rest) == Blanked(body) + after
  {
    hide TurnOf, Mask;
    BodyStep(body, rest);
    MaskTurn(rule, m, escaped, body + rest);
    assert [Blank(body[0])] + (Blanked(body[1..]) + after) == Blanked(body) + after;
  }

  /** The character that ends a piece leads back to code. */
  lemma Leave(rule: Rule, body: string, rest: string)
    requires |body| == 1
    ensures Mask(rule, Code, false, body[1..] + rest) == Blanked(body[1..]) + Mask(rule, Code, false, rest)
  {
    hide Mask;
    assert body[1..] == [] && body[1..] + rest == rest && Blanked([]) == [];
    assert [] + Mask(rule, Code, false, rest) == Mask(rule, Code, false, rest);
  }

  /** At the end of the text there is nothing left in any mode. */
  lemma AtEnd(rule: Rule, m: Mode, escaped: bool, body: string, rest: string)
    requires body == [] && rest == []
    ensures Mask(rule, m, escaped, body + rest) == Blanked(body) + Mask(rule, Code, false, rest)
  {
    assert body + rest == [];
  }

  lemma {:induction false} ScanCode(rule: Rule, text: string, rest: string)
    requires IsCode(text, rest)
    ensures Mask(rule, Code, false, text + rest) == text + Mask(rule, Code, false, rest)
    decreases |text|
  {
    hide Mask;
    if text == [] {
      assert text + rest == rest && [] + Mask(rule, Code, false, rest) == Mask(rule, Code, false, rest);
    } else {
      CodeTurn(rule, text, rest);
      CodeTail(text, rest);
      hide IsCode;
      ScanCode(rule, text[1..], rest);
      assert [text[0]] + (text[1..] + Mask(rule, Code, false, rest)) == text + Mask(rule, Code, false, rest);
    }
  }

  lemma CodeTurn(rule: Rule, text: string, rest: string)
    requires text != [] && IsCode(text, rest)
    ensures Mask(rule, Code, false, text + rest) == [text[0]] + Mask(rule, Code, false, text[1..] + rest)
  {
    hide Mask;
    BodyStep(text, rest);
    MaskTurn(rule, Code, false, text + rest);
  }

  lemma CodeTail(text: string, rest: string)
    requires text != [] && IsCode(text, rest)
    ensures IsCode(text[1..], rest)
  {
    var tail := text[1..];
    BodyStep(text, rest);
    forall k | 0 <= k < |tail| && tail[k] == '/' && k + 1 < |tail + rest|
      ensures (tail + rest)[k + 1] != '/' && (tail + rest)[k + 1] != '*'
    {
      assert text[k + 1] == '/' && (text + rest)[k + 2] == (tail + rest)[k + 1];
    }
  }

  lemma {:induction false} ScanLine(rule: Rule, body: string, rest: string)
    requires IsLine(body, rest)
    ensures Mask(rule, LineComment, false, body + rest) == Blanked(body) + Mask(rule, Code, false, rest)
    decreases |body|
  {
    hide Mask, Blanked;
    if body == [] {
      AtEnd(rule, LineComment, false, body, rest);
    } else {
      BodyStep(body, rest);
      if body[0] == '\n' { Leave(rule, body, rest); } else { ScanLine(rule, body[1..], rest); }
      Carry(rule, LineComment, false, body, rest, Mask(rule, Code, false, rest));
    }
  }

  lemma {:induction false} ScanRaw(rule: Rule, body: string, rest: string)
    requires IsRaw(body, rest)
    ensures Mask(rule, Raw, false, body + rest) == Blanked(body) + Mask(rule, Code, false, rest)
    decreases |body|
  {
    hide Mask, Blanked;
    if body == [] {
      AtEnd(rule, Raw, false, body, rest);
    } else {
      BodyStep(body, rest);
      if body[0] == '`' { Leave(rule, body, rest); } else { ScanRaw(rule, body[1..], rest); }
      Carry(rule, Raw, false, body, rest, Mask(rule, Code, false, rest));
    }
  }

  lemma {:induction false} ScanBlock(rule: Rule, body: string, rest: string)
    requires IsBlock(body, rest)
    ensures Mask(rule, BlockComment, false, body + rest) == Blanked(body) + Mask(rule, Code, false, rest)
    decreases |body|
  {
    hide Mask, Blanked;
    if body == [] {
      AtEnd(rule, BlockComment, false, body, rest);
    } else if |body| >= 2 && body[0] == '*' && body[1] == '/' {
      BlockCloses(rule, body, rest);
    } else {
      BodyStep(body, rest);
      assert !Closes(body + rest);
      ScanBlock(rule, body[1..], rest);
      Carry(rule, BlockComment, false, body, rest, Mask(rule, Code, false, rest));
    }
  }

  lemma BlockCloses(rule: Rule, body: string, rest: string)
    requires |body| == 2 && body[0] == '*' && body[1] == '/'
    ensures Mask(rule, BlockComment, false, body + rest) == Blanked(body) + Mask(rule, Code, false, rest)
  {
    hide Mask;
    MaskTurn(rule, BlockComment, false, body + rest);
    assert (body + rest)[2..] == rest;
    assert body[1..][1..] == [] && Blanked(body) == [' '] + Blanked(body[1..]) && Blanked(body[1..]) == [' '] + [];
  }

  lemma {:induction false} EscapedShifts(first: bool, body: string, k: nat)
    requires body != [] && k <= |body| - 1
    ensures EscapedAt(body[0] == '\\' && !first, body[1..], k) == EscapedAt(first, body, k + 1)
  {
    if k > 0 { EscapedShifts(first, body, k - 1); }
  }

  lemma LiteralTail(rule: Rule, open: char, first: bool, body: string, rest: string)
    requires body != [] && IsLiteral(rule, open, first, body, rest)
    requires !Shuts(rule, open, body[0]) || first
    ensures IsLiteral(rule, open, body[0] == '\\' && !first, body[1..], rest)
  {
    hide EscapedAt, Shuts;
    var tail, second := body[1..], body[0] == '\\' && !first;
    forall k | 0 <= k < |tail| ensures EscapedAt(second, tail, k) == EscapedAt(first, body, k + 1) {
      EscapedShifts(first, body, k);
    }
    EscapedStart(first, body);
  }

  lemma EscapedStart(first: bool, body: string)
    ensures EscapedAt(first, body, 0) == first
  {
  }

  lemma {:induction false} ScanLiteral(rule: Rule, m: Mode, first: bool, body: string, rest: string)
    requires m.Quoted? || m.Rune?
    requires IsLiteral(rule, if m.Quoted? then '"' else '\'', first, body, rest)
    ensures Mask(rule, m, first, body + rest) == Blanked(body) + Mask(rule, Code, false, rest)
    decreases |body|
  {
    hide Mask, Blanked;
    if body == [] {
      AtEnd(rule, m, first, body, rest);
    } else {
      var open := if m.Quoted? then '"' else '\'';
      BodyStep(body, rest);
      if Shuts(rule, open, body[0]) && !first {
        LiteralEnds(rule, open, body, rest);
        Leave(rule, body, rest);
      } else {
        LiteralTail(rule, open, first, body, rest);
        hide IsLiteral;
        ScanLiteral(rule, m, body[0] == '\\' && !first, body[1..], rest);
      }
      Carry(rule, m, first, body, rest, Mask(rule, Code, false, rest));
    }
  }

  lemma LiteralEnds(rule: Rule, open: char, body: string, rest: string)
    requires body != [] && IsLiteral(rule, open, false, body, rest) && Shuts(rule, open, body[0])
    ensures |body| == 1
  {
    EscapedStart(false, body);
  }

  /** A piece is scanned from code into code, and shown as its kind is. */
  lemma ScanPiece(rule: Rule, piece: Piece, rest: string)
    requires Lexes(rule, piece, rest)
    ensures Mask(rule, Code, false, piece.text + rest) == ShownAs(piece) + Mask(rule, Code, false, rest)
  {
    hide Mask, IsCode, IsLine, IsBlock, IsRaw, IsLiteral;
    var text := piece.text;
    match piece
    case Plainly(_) => ScanCode(rule, text, rest);
    case Line(_) =>
      OpenerStep(rule, text, rest);
      ScanLine(rule, text[2..], rest);
    case Block(_) =>
      OpenerStep(rule, text, rest);
      ScanBlock(rule, text[2..], rest);
    case RawText(_) =>
      QuoteStep(rule, text, rest);
      ScanRaw(rule, text[1..], rest);
    case Literal(_) =>
      QuoteStep(rule, text, rest);
      ScanLiteral(rule, EnterFrom(text[0]), false, text[1..], rest);
  }

  lemma OpenerStep(rule: Rule, text: string, rest: string)
    requires "//" <= text || "/*" <= text
    ensures Mask(rule, Code, false, text + rest) ==
            [' ', ' '] + Mask(rule, if text[1] == '/' then LineComment else BlockComment, false, text[2..] + rest)
    ensures Blanked(text) == [' ', ' '] + Blanked(text[2..])
  {
    hide Mask;
    assert text[0] == '/' && (text[1] == '/' || text[1] == '*');
    assert (text + rest)[2..] == text[2..] + rest;
    MaskTurn(rule, Code, false, text + rest);
  }

  lemma QuoteStep(rule: Rule, text: string, rest: string)
    requires "`" <= text || "\"" <= text || "'" <= text
    ensures Mask(rule, Code, false, text + rest) == [' '] + Mask(rule, EnterFrom(text[0]), false, text[1..] + rest)
    ensures Blanked(text) == [' '] + Blanked(text[1..])
  {
    hide Mask;
    assert text[0] == '`' || text[0] == '"' || text[0] == '\'';
    assert (text + rest)[1..] == text[1..] + rest;
    MaskTurn(rule, Code, false, text + rest);
  }

  /** Masking keeps the code of a text as it stands, and blanks every comment and literal in place. */
  lemma {:induction false} MaskByPieces(rule: Rule, pieces: seq<Piece>, s: string)
    requires Split(rule, pieces, s)
    ensures Mask(rule, Code, false, s) == Shown(pieces)
    decreases |pieces|
  {
    if pieces != [] {
      hide Mask, Lexes, ShownAs;
      var piece, rest := pieces[0], s[|pieces[0].text|..];
      assert s == piece.text + rest;
      ScanPiece(rule, piece, rest);
      MaskByPieces(rule, pieces[1..], rest);
    } else {
      MaskNothing(rule, Code, false);
    }
  }

  // ----- Every text splits -----

  lemma {:induction false} LineCut(body: string) returns (n: nat)
    ensures n <= |body| && IsLine(body[..n], body[n..])
  {
    if body == [] || body[0] == '\n' {
      n := if body == [] then 0 else 1;
    } else {
      var rest := LineCut(body[1..]);
      n := rest + 1;
      assert body[..n] == [body[0]] + body[1..][..rest] && body[n..] == body[1..][rest..];
    }
  }

  lemma {:induction false} RawCut(body: string) returns (n: nat)
    ensures n <= |body| && IsRaw(body[..n], body[n..])
  {
    if body == [] || body[0] == '`' {
      n := if body == [] then 0 else 1;
    } else {
      var rest := RawCut(body[1..]);
      n := rest + 1;
      assert body[..n] == [body[0]] + body[1..][..rest] && body[n..] == body[1..][rest..];
    }
  }

  lemma {:induction false} BlockCut(body: string) returns (n: nat)
    ensures n <= |body| && IsBlock(body[..n], body[n..])
  {
    if |body| < 2 || Closes(body) {
      n := if |body| < 2 then |body| else 2;
    } else {
      var rest := BlockCut(body[1..]);
      n := rest + 1;
      var cut := body[1..][..rest];
      assert body[..n] == [body[0]] + cut && body[n..] == body[1..][rest..];
      forall k | 0 <= k < n - 2 ensures !(body[..n][k] == '*' && body[..n][k + 1] == '/') {
        if k > 0 { assert body[..n][k] == cut[k - 1] && body[..n][k + 1] == cut[k]; }
      }
    }
  }

  lemma {:induction false} LiteralCut(rule: Rule, open: char, first: bool, body: string) returns (n: nat)
    ensures n <= |body| && IsLiteral(rule, open, first, body[..n], body[n..])
    decreases |body|
  {
    if body == [] || (Shuts(rule, open, body[0]) && !first) {
      n := if body == [] then 0 else 1;
    } else {
      hide Shuts;
      var second := body[0] == '\\' && !first;
      var rest := LiteralCut(rule, open, second, body[1..]);
      n := rest + 1;
      var all, cut := body[..n], body[1..][..rest];
      assert all == [body[0]] + cut && all[1..] == cut && body[n..] == body[1..][rest..];
      forall k | 0 <= k < |cut| ensures EscapedAt(second, cut, k) == EscapedAt(first, all, k + 1) {
        EscapedShifts(first, all, k);
      }
      LiteralLonger(rule, open, first, all, body[n..]);
    }
  }

  lemma LiteralLonger(rule: Rule, open: char, first: bool, all: string, rest: string)
    requires all != [] && IsLiteral(rule, open, all[0] == '\\' && !first, all[1..], rest)
    requires !Shuts(rule, open, all[0]) || first
    ensures IsLiteral(rule, open, first, all, rest)
  {
    hide EscapedAt, Shuts;
    var tail, second := all[1..], all[0] == '\\' && !first;
    forall k | 0 <= k < |tail| ensures EscapedAt(second, tail, k) == EscapedAt(first, all, k + 1) {
      EscapedShifts(first, all, k);
    }
    EscapedStart(first, all);
  }

  lemma FirstPiece(rule: Rule, s: string) returns (piece: Piece)
    requires s != []
    ensures piece.text != [] && piece.text <= s && Lexes(rule, piece, s[|piece.text|..])
  {
    hide IsLine, IsBlock, IsRaw, IsLiteral;
    if "//" <= s {
      var n := LineCut(s[2..]);
      piece := Line(s[..n + 2]);
      assert piece.text[2..] == s[2..][..n] && s[n + 2..] == s[2..][n..];
    } else if "/*" <= s {
      var n := BlockCut(s[2..]);
      piece := Block(s[..n + 2]);
      assert piece.text[2..] == s[2..][..n] && s[n + 2..] == s[2..][n..];
    } else if s[0] == '`' {
      var n := RawCut(s[1..]);
      piece := RawText(s[..n + 1]);
      assert piece.text[1..] == s[1..][..n] && s[n + 1..] == s[1..][n..];
    } else if s[0] == '"' || s[0] == '\'' {
      var n := LiteralCut(rule, s[0], false, s[1..]);
      piece := Literal(s[..n + 1]);
      assert piece.text[1..] == s[1..][..n] && s[n + 1..] == s[1..][n..];
    } else {
      piece := Plainly(s[..1]);
      assert s == s[..1] + s[1..];
    }
  }

  /** Every text has such a split, so what masking means is said of every text. */
  lemma {:induction false} EveryTextSplits(rule: Rule, s: string) returns (pieces: seq<Piece>)
    ensures Split(rule, pieces, s)
    decreases |s|
  {
    if s == [] {
      pieces := [];
    } else {
      hide Lexes;
      var piece := FirstPiece(rule, s);
      var rest := EveryTextSplits(rule, s[|piece.text|..]);
      pieces := [piece] + rest;
      assert pieces[1..] == rest;
    }
  }

  // ----- The program -----

  /** The scanner as the program runs it, before the result is split into lines. */
  method MaskGo(source: string) returns (output: string)
    ensures output == Mask(AnyQuote, Code, false, source)
    ensures forall pieces :: Split(AnyQuote, pieces, source) ==> output == Shown(pieces)
  {
    hide Mask, TurnOf, Split;
    output := [];
    var mode := Code;
    var escaped := false;
    var index := 0;
    assert source[0..] == source;
    assert output + Mask(AnyQuote, mode, escaped, source) == Mask(AnyQuote, mode, escaped, source);
    while index < |source|
      invariant 0 <= index <= |source|
      invariant output + Mask(AnyQuote, mode, escaped, source[index..]) == Mask(AnyQuote, Code, false, source)
    {
      var emitted, nextMode, nextEscaped := ScanOne(mode, escaped, source, index);
      assert source[index..][|emitted|..] == source[index + |emitted|..];
      MaskTurn(AnyQuote, mode, escaped, source[index..]);
      ghost var rest := Mask(AnyQuote, nextMode, nextEscaped, source[index + |emitted|..]);
      assert output + (emitted + rest) == (output + emitted) + rest;
      output := output + emitted;
      mode, escaped := nextMode, nextEscaped;
      index := index + |emitted|;
    }
    assert source[index..] == [];
    MaskNothing(AnyQuote, mode, escaped);
    assert output + [] == output;
    forall pieces | Split(AnyQuote, pieces, source) ensures output == Shown(pieces) {
      MaskByPieces(AnyQuote, pieces, source);
    }
  }

  /** One turn of the loop. */
  method ScanOne(
      mode: Mode, escaped: bool, source: string, index: nat)
    returns (emitted: string, nextMode: Mode, nextEscaped: bool)
    requires index < |source|
    ensures Turn(emitted, nextMode, nextEscaped) == TurnOf(AnyQuote, mode, escaped, source[index..])
  {
    ghost var rest := source[index..];
    var character := source[index];
    var hasNext := index + 1 < |source|;
    assert rest[0] == character && (hasNext <==> |rest| >= 2) && (hasNext ==> rest[1] == source[index + 1]);
    emitted, nextMode, nextEscaped := [Blank(character)], mode, escaped;
    if mode == Code {
      if character == '/' && hasNext && source[index + 1] == '/' {
        return [' ', ' '], LineComment, escaped;
      }
      if character == '/' && hasNext && source[index + 1] == '*' {
        return [' ', ' '], BlockComment, escaped;
      }
      if character == '"' {
        emitted, nextMode := [' '], Quoted;
      } else if character == '\'' {
        emitted, nextMode := [' '], Rune;
      } else if character == '`' {
        emitted, nextMode := [' '], Raw;
      } else {
        emitted := [character];
      }
    } else if mode == LineComment {
      if character == '\n' { nextMode := Code; }
    } else if mode == BlockComment {
      if character == '*' && hasNext && source[index + 1] == '/' {
        return [' ', ' '], Code, escaped;
      }
    } else if mode == Raw {
      if character == '`' { nextMode := Code; }
    } else {
      if character == '\\' && !escaped {
        nextEscaped := true;
      } else if (character == '"' || character == '\'') && !escaped {
        nextMode := Code;
      } else {
        nextEscaped := false;
      }
    }
  }

  // ----- Masking keeps positions -----

  /** Every character keeps its place: it survives or becomes a blank, and line breaks stay where they were. */
  lemma {:induction false} MaskKeepsPlaces(rule: Rule, m: Mode, escaped: bool, s: string)
    ensures |Mask(rule, m, escaped, s)| == |s|
    ensures forall k :: 0 <= k < |s| ==>
              && (Mask(rule, m, escaped, s)[k] == s[k] || Mask(rule, m, escaped, s)[k] == ' ')
              && (Mask(rule, m, escaped, s)[k] == '\n' <==> s[k] == '\n')
    decreases |s|
  {
    if s != [] {
      var t := TurnOf(rule, m, escaped, s);
      var rest := s[|t.emitted|..];
      assert forall k :: 0 <= k < |t.emitted| ==>
             (t.emitted[k] == s[k] || t.emitted[k] == ' ') && (t.emitted[k] == '\n' <==> s[k] == '\n');
      hide TurnOf;
      MaskKeepsPlaces(rule, t.mode, t.escaped, rest);
    }
  }

  // ----- Nothing left to mask -----

  /** No quote and no comment opener anywhere. */
  ghost predicate Plain(t: string) {
    && (forall k :: 0 <= k < |t| ==> EnterFrom(t[k]).Code?)
    && (forall k :: 0 <= k < |t| - 1 ==> t[k] == '/' ==> t[k + 1] != '/' && t[k + 1] != '*')
  }

  lemma PlainCons(c: char, t: string)
    requires Plain(t) && EnterFrom(c).Code?
    requires c == '/' && t != [] ==> t[0] != '/' && t[0] != '*'
    ensures Plain([c] + t)
  {
    var r := [c] + t;
    forall k | 0 <= k < |r| - 1 && r[k] == '/' ensures r[k + 1] != '/' && r[k + 1] != '*' {
      if k > 0 { assert r[k] == t[k - 1] && r[k + 1] == t[k]; }
    }
  }

  /** A turn leaves no quote, and no comment opener together with what may follow it. */
  lemma TurnIsPlain(rule: Rule, m: Mode, escaped: bool, s: string)
    requires s != []
    ensures var t := TurnOf(rule, m, escaped, s);
            if |t.emitted| == 2 then t.emitted == [' ', ' ']
            else EnterFrom(t.emitted[0]).Code? && (t.emitted[0] == '/' && |s| >= 2 ==> s[1] != '/' && s[1] != '*')
  {
  }

  lemma {:induction false} MaskIsPlain(rule: Rule, m: Mode, escaped: bool, s: string)
    ensures Plain(Mask(rule, m, escaped, s))
    decreases |s|
  {
    if s != [] {
      hide TurnOf, EnterFrom, Mask, Plain;
      var t := TurnOf(rule, m, escaped, s);
      var rest := Mask(rule, t.mode, t.escaped, s[|t.emitted|..]);
      MaskTurn(rule, m, escaped, s);
      TurnIsPlain(rule, m, escaped, s);
      MaskIsPlain(rule, t.mode, t.escaped, s[|t.emitted|..]);
      MaskKeepsPlaces(rule, t.mode, t.escaped, s[|t.emitted|..]);
      if |t.emitted| == 2 {
        PlainBlanks(rest);
      } else {
        assert t.emitted == [t.emitted[0]];
        assert rest != [] ==> rest[0] == s[1] || rest[0] == ' ';
        PlainCons(t.emitted[0], rest);
      }
    }
  }

  lemma PlainBlanks(t: string)
    requires Plain(t)
    ensures Plain([' ', ' '] + t)
  {
    hide Plain;
    PlainCons(' ', t);
    PlainCons(' ', [' '] + t);
    assert [' ', ' '] + t == [' '] + ([' '] + t);
  }

  lemma PlainTail(t: string)
    requires Plain(t) && t != []
    ensures Plain(t[1..])
  {
    var rest := t[1..];
    forall k | 0 <= k < |rest| - 1 && rest[k] == '/' ensures rest[k + 1] != '/' && rest[k + 1] != '*' {
      assert rest[k] == t[k + 1] && rest[k + 1] == t[k + 2];
    }
  }

  lemma {:induction false} PlainIsFixed(rule: Rule, t: string, escaped: bool)
    requires Plain(t)
    ensures Mask(rule, Code, escaped, t) == t
    decreases |t|
  {
    if t != [] {
      PlainTail(t);
      assert !Opens(t, '/') && !Opens(t, '*');
      PlainIsFixed(rule, t[1..], escaped);
    }
  }

  /** Masking is idempotent: a masked text holds no literal and no comment to mask. */
  lemma MaskIsIdempotent(rule: Rule, s: string)
    ensures Plain(Mask(rule, Code, false, s))
    ensures Mask(rule, Code, false, Mask(rule, Code, false, s)) == Mask(rule, Code, false, s)
  {
    MaskIsPlain(rule, Code, false, s);
    PlainIsFixed(rule, Mask(rule, Code, false, s), false);
  }

  // ----- Against the language's own lexical rule -----

  /** The modes a scan passes through, one per turn. */
  function Modes(rule: Rule, m: Mode, escaped: bool, s: string): seq<Mode>
    decreases |s|
  {
    if s == [] then [m]
    else
      var t := TurnOf(rule, m, escaped, s);
      [m] + Modes(rule, t.mode, t.escaped, s[|t.emitted|..])
  }

  /** The next character is an unescaped quote inside a literal of the other kind. */
  predicate ForeignHere(m: Mode, escaped: bool, s: string) {
    s != [] && !escaped && ((m.Quoted? && s[0] == '\'') || (m.Rune? && s[0] == '"'))
  }

  /** Some literal, as Go reads it, holds an unescaped quote of the other kind. */
  predicate ForeignQuote(m: Mode, escaped: bool, s: string)
    decreases |s|
  {
    s != [] &&
    var t := TurnOf(OwnQuote, m, escaped, s);
    ForeignHere(m, escaped, s) || ForeignQuote(t.mode, t.escaped, s[|t.emitted|..])
  }

  /** The two rules take a turn alike exactly when it does not meet a foreign quote. */
  lemma TurnsAgree(m: Mode, escaped: bool, s: string)
    requires s != []
    ensures var ours, go := TurnOf(AnyQuote, m, escaped, s), TurnOf(OwnQuote, m, escaped, s);
            && ours.emitted == go.emitted
            && (if ForeignHere(m, escaped, s) then ours.mode != go.mode else ours == go)
  {
  }

  lemma ModesHead(rule: Rule, m: Mode, escaped: bool, s: string)
    ensures Modes(rule, m, escaped, s) != [] && Modes(rule, m, escaped, s)[0] == m
  {
  }

  lemma ConsEqual(m: Mode, a: seq<Mode>, b: seq<Mode>)
    ensures [m] + a == [m] + b <==> a == b
  {
    if [m] + a == [m] + b { assert a == ([m] + a)[1..] == ([m] + b)[1..] == b; }
  }

  /** The scanner passes through the modes that Go's rule gives exactly when no
      literal holds an unescaped quote of the other kind, and then masks the
      same characters. */
  lemma {:induction false} ScanAgreesExactly(m: Mode, escaped: bool, s: string)
    ensures Modes(AnyQuote, m, escaped, s) == Modes(OwnQuote, m, escaped, s) <==> !ForeignQuote(m, escaped, s)
    ensures !ForeignQuote(m, escaped, s) ==> Mask(AnyQuote, m, escaped, s) == Mask(OwnQuote, m, escaped, s)
    decreases |s|
  {
    if s != [] {
      hide TurnOf, ForeignHere;
      var ours, go := TurnOf(AnyQuote, m, escaped, s), TurnOf(OwnQuote, m, escaped, s);
      var rest := s[|go.emitted|..];
      TurnsAgree(m, escaped, s);
      ScanAgreesExactly(go.mode, go.escaped, rest);
      ModesHead(AnyQuote, ours.mode, ours.escaped, rest);
      ModesHead(OwnQuote, go.mode, go.escaped, rest);
      ConsEqual(m, Modes(AnyQuote, ours.mode, ours.escaped, rest), Modes(OwnQuote, go.mode, go.escaped, rest));
    }
  }

  const QUOTE_RUNE: string := ['\'', '"', '\'', 'x']

  lemma QuoteRuneTails()
    ensures var s := QUOTE_RUNE;
            && s[1..][1..] == s[2..] && s[2..][1..] == s[3..] && s[3..][1..] == []
            && s[1..][0] == '"' && s[2..][0] == '\'' && s[3..][0] == 'x'
  {
  }

  lemma QuoteRuneScanned()
    ensures Mask(AnyQuote, Code, false, QUOTE_RUNE) == [' ', ' ', ' ', ' ']
  {
    hide Mask;
    var s := QUOTE_RUNE;
    QuoteRuneTails();
    MaskTurn(AnyQuote, Code, false, s);
    MaskTurn(AnyQuote, Rune, false, s[1..]);
    MaskTurn(AnyQuote, Code, false, s[2..]);
    MaskTurn(AnyQuote, Rune, false, s[3..]);
    MaskNothing(AnyQuote, Rune, false);
  }

  lemma QuoteRuneRead()
    ensures Mask(OwnQuote, Code, false, QUOTE_RUNE) == [' ', ' ', ' ', 'x']
  {
    hide Mask;
    var s := QUOTE_RUNE;
    QuoteRuneTails();
    MaskTurn(OwnQuote, Code, false, s);
    MaskTurn(OwnQuote, Rune, false, s[1..]);
    MaskTurn(OwnQuote, Rune, false, s[2..]);
    MaskTurn(OwnQuote, Code, false, s[3..]);
    MaskNothing(OwnQuote, Code, false);
  }

  /** The rune literal of a double quote derails the scan: the code after it is masked as if it were a literal. */
  lemma QuoteRuneHidesCode()
    ensures Mask(AnyQuote, Code, false, QUOTE_RUNE) == [' ', ' ', ' ', ' ']
    ensures Mask(OwnQuote, Code, false, QUOTE_RUNE) == [' ', ' ', ' ', 'x']
  {
    QuoteRuneScanned();
    QuoteRuneRead();
  }
}
