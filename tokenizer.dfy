/** The tokenizer (src/parser/tokenizer.rs): an ordered table of anchored
    recognizers, the first of which to match at the cursor wins. */
module Tokenizing {
  import opened Results
  import opened Nodes

  // ---------------------------------------------------------------------
  // Tokens (tokenizer.rs:23-66)
  // ---------------------------------------------------------------------

  datatype TokenKind =
    | Eoi
    | NewLine
    | WhiteSpace
    | LineComment
    | BlockComment
    | Comma
    | Colon
    | OpenSquareBracket
    | ClosedSquareBracket
    | OpenCurlyBrace
    | ClosedCurlyBrace
    | NullLiteral
    | BooleanLiteral
    | NumberLiteral
    | StringLiteral

  /** How `{:?}` prints a kind: its variant name. */
  function KindName(k: TokenKind): string {
    match k
    case Eoi => "Eoi"
    case NewLine => "NewLine"
    case WhiteSpace => "WhiteSpace"
    case LineComment => "LineComment"
    case BlockComment => "BlockComment"
    case Comma => "Comma"
    case Colon => "Colon"
    case OpenSquareBracket => "OpenSquareBracket"
    case ClosedSquareBracket => "ClosedSquareBracket"
    case OpenCurlyBrace => "OpenCurlyBrace"
    case ClosedCurlyBrace => "ClosedCurlyBrace"
    case NullLiteral => "NullLiteral"
    case BooleanLiteral => "BooleanLiteral"
    case NumberLiteral => "NumberLiteral"
    case StringLiteral => "StringLiteral"
  }

  predicate IsComment(k: TokenKind) {
    k == LineComment || k == BlockComment
  }

  /** Kinds the scan loop drops or rejects instead of handing on. */
  predicate IsSkipped(k: TokenKind) {
    k == NewLine || k == WhiteSpace || IsComment(k)
  }

  datatype Token = Token(kind: TokenKind, raw: string, span: Span)

  // ---------------------------------------------------------------------
  // Recognizers: the regexes of the table as prefix matchers. `\d` and `\b`
  // are taken in their ASCII sense.
  // ---------------------------------------------------------------------

  /** `[\t\f\v ]` */
  predicate IsBlank(c: char) {
    c == '\t' || c == '\U{000C}' || c == '\U{000B}' || c == ' '
  }

  /** `\d` */
  predicate IsDigit(c: char) {
    '0' <= c <= '9'
  }

  /** `\w` */
  predicate IsWordChar(c: char) {
    'a' <= c <= 'z' || 'A' <= c <= 'Z' || IsDigit(c) || c == '_'
  }

  /** `\b` at offset `i` of `s`: a word character on exactly one side. */
  predicate IsBoundary(s: string, i: nat)
    requires i <= |s|
  {
    (i > 0 && IsWordChar(s[i - 1])) != (i < |s| && IsWordChar(s[i]))
  }

  datatype CharClass = Blank | Digit | NotLineBreak

  predicate InClass(c: char, cls: CharClass) {
    match cls
    case Blank => IsBlank(c)
    case Digit => IsDigit(c)
    case NotLineBreak => c != '\n' && c != '\r'
  }

  /** The end of the longest run of `cls` characters starting at `i`. */
  function RunEnd(s: string, i: nat, cls: CharClass): (j: nat)
    requires i <= |s|
    ensures i <= j <= |s|
    ensures forall k :: i <= k < j ==> InClass(s[k], cls)
    ensures j == |s| || !InClass(s[j], cls)
    decreases |s| - i
  {
    if i == |s| || !InClass(s[i], cls) then i else RunEnd(s, i + 1, cls)
  }

  /** The first index at or after `i` that holds `c`. */
  function FindChar(s: string, i: nat, c: char): (r: Option<nat>)
    requires i <= |s|
    ensures r.Some? ==> i <= r.value < |s| && s[r.value] == c
    ensures forall k :: i <= k < (if r.Some? then r.value else |s|) ==> s[k] != c
    decreases |s| - i
  {
    if i == |s| then None
    else if s[i] == c then Some(i)
    else FindChar(s, i + 1, c)
  }

  // The first index at or after `i` where the closing `*/` of a block comment starts.
  function FindCommentEnd(s: string, i: nat): (r: Option<nat>)
    requires i <= |s|
    ensures r.Some? ==> i <= r.value && r.value + 1 < |s| && s[r.value] == '*' && s[r.value + 1] == '/'
    ensures forall k :: i <= k < (if r.Some? then r.value else |s|) && k + 1 < |s| ==>
              !(s[k] == '*' && s[k + 1] == '/')
    decreases |s| - i
  {
    if i + 1 >= |s| then None
    else if s[i] == '*' && s[i + 1] == '/' then Some(i)
    else FindCommentEnd(s, i + 1)
  }

  /** The anchored patterns of tokenizer.rs:79-103. */
  datatype Pattern =
    | Literal(text: string)   // `^\n\r`, `^\n`, `^,`, `^:`, `^\[`, `^\]`, `^\{`, `^\}`
    | Blanks                  // `^[\t\f\v ]+`
    | LineCommentText         // `^//[^\n\r]*`
    | BlockCommentText        // `^/\*[\s\S]*?\*/`
    | Keyword(word: string)   // `^\bnull\b`, `^\bfalse\b`, `^\btrue\b`
    | DecimalNumber           // `^\d+\.\d+`
    | IntegerNumber           // `^\d+`
    | Quoted(quote: char)     // `^"[^"]*"`, `^'[^']*'`
  {
    /** `Regex::find` of the anchored pattern: the prefix of `s` it matches.
        Repetitions are greedy except in a block comment, which ends at the
        first closing star-slash. */
    function Find(s: string): (m: Option<string>)
      ensures m.Some? ==> m.value <= s
    {
      match this
      case Literal(text) =>
        if text <= s then Some(text) else None
      case Blanks =>
        var j := RunEnd(s, 0, Blank);
        if j > 0 then Some(s[..j]) else None
      case LineCommentText =>
        if "//" <= s then Some(s[..RunEnd(s, 2, NotLineBreak)]) else None
      case BlockCommentText =>
        if "/*" <= s then
          match FindCommentEnd(s, 2)
          case Some(j) => Some(s[..j + 2])
          case None => None
        else None
      case Keyword(word) =>
        if word <= s && IsBoundary(s, 0) && IsBoundary(s, |word|) then Some(word) else None
      case DecimalNumber =>
        var i := RunEnd(s, 0, Digit);
        if 0 < i < |s| && s[i] == '.' then
          var j := RunEnd(s, i + 1, Digit);
          if j > i + 1 then Some(s[..j]) else None
        else None
      case IntegerNumber =>
        var i := RunEnd(s, 0, Digit);
        if i > 0 then Some(s[..i]) else None
      case Quoted(q) =>
        if |s| > 0 && s[0] == q then
          match FindChar(s, 1, q)
          case Some(j) => Some(s[..j + 1])
          case None => None
        else None
    }
  }

  /** One row of the recognizer table. */
  datatype TokenSpec = TokenSpec(kind: TokenKind, pattern: Pattern) {
    function Test(s: string): (m: Option<string>)
      ensures m.Some? ==> m.value <= s
    {
      pattern.Find(s)
    }
  }

  /** The table built by `Tokenizer::new`, in its order (tokenizer.rs:78-104). */
  const Table: seq<TokenSpec> := [
    TokenSpec(NewLine, Literal("\n\r")),
    TokenSpec(NewLine, Literal("\n")),
    TokenSpec(WhiteSpace, Blanks),
    TokenSpec(LineComment, LineCommentText),
    TokenSpec(BlockComment, BlockCommentText),
    TokenSpec(Comma, Literal(",")),
    TokenSpec(Colon, Literal(":")),
    TokenSpec(OpenSquareBracket, Literal("[")),
    TokenSpec(ClosedSquareBracket, Literal("]")),
    TokenSpec(OpenCurlyBrace, Literal("{")),
    TokenSpec(ClosedCurlyBrace, Literal("}")),
    TokenSpec(NullLiteral, Keyword("null")),
    TokenSpec(BooleanLiteral, Keyword("false")),
    TokenSpec(BooleanLiteral, Keyword("true")),
    TokenSpec(NumberLiteral, DecimalNumber),
    TokenSpec(NumberLiteral, IntegerNumber),
    TokenSpec(StringLiteral, Quoted('"')),
    TokenSpec(StringLiteral, Quoted('\''))
  ]

  // ---------------------------------------------------------------------
  // The language of each kind, described directly
  // ---------------------------------------------------------------------

  predicate AllDigits(m: string) {
    forall i :: 0 <= i < |m| ==> IsDigit(m[i])
  }

  /** `\d+` or `\d+\.\d+` */
  ghost predicate IsNumberText(m: string) {
    (|m| > 0 && AllDigits(m))
    || exists i :: 0 < i < |m| - 1 && m[i] == '.' && AllDigits(m[..i]) && AllDigits(m[i + 1..])
  }

  /** The texts a token of kind `k` can carry. */
  ghost predicate IsLexeme(k: TokenKind, m: string) {
    match k
    case Eoi => m == ""
    case NewLine => m == "\n\r" || m == "\n"
    case WhiteSpace => |m| > 0 && forall i :: 0 <= i < |m| ==> IsBlank(m[i])
    case LineComment =>
      |m| >= 2 && m[..2] == "//" && forall i :: 2 <= i < |m| ==> m[i] != '\n' && m[i] != '\r'
    case BlockComment =>
      |m| >= 4 && m[..2] == "/*" && m[|m| - 2] == '*' && m[|m| - 1] == '/'
      && forall i :: 2 <= i < |m| - 2 ==> !(m[i] == '*' && m[i + 1] == '/')
    case Comma => m == ","
    case Colon => m == ":"
    case OpenSquareBracket => m == "["
    case ClosedSquareBracket => m == "]"
    case OpenCurlyBrace => m == "{"
    case ClosedCurlyBrace => m == "}"
    case NullLiteral => m == "null"
    case BooleanLiteral => m == "true" || m == "false"
    case NumberLiteral => IsNumberText(m)
    case StringLiteral =>
      |m| >= 2 && (m[0] == '"' || m[0] == '\'') && m[|m| - 1] == m[0]
      && forall i :: 0 < i < |m| - 1 ==> m[i] != m[0]
  }

  // ---------------------------------------------------------------------
  // First match wins (the `for spec in &self.specs` loop of get_token)
  // ---------------------------------------------------------------------

  datatype Match = Match(kind: TokenKind, text: string)

  /** The first row of `specs`, from row `i` on, whose pattern matches `s`. */
  function FirstMatchFrom(specs: seq<TokenSpec>, s: string, i: nat): (r: Option<Match>)
    requires i <= |specs|
    ensures r.None? ==> forall j :: i <= j < |specs| ==> specs[j].Test(s).None?
    ensures r.Some? ==>
      exists j :: i <= j < |specs| && specs[j].kind == r.value.kind
        && specs[j].Test(s) == Some(r.value.text)
        && forall l :: i <= l < j ==> specs[l].Test(s).None?
    decreases |specs| - i
  {
    if i == |specs| then None
    else
      match specs[i].Test(s)
      case Some(m) => Some(Match(specs[i].kind, m))
      case None => FirstMatchFrom(specs, s, i + 1)
  }

  function FirstMatch(s: string): (r: Option<Match>)
  {
    FirstMatchFrom(Table, s, 0)
  }

  /** What any row of the table matches is a non-empty prefix in the language
      of the row's kind. */
  lemma TableRowShape(j: nat, s: string)
    requires j < |Table| && Table[j].Test(s).Some?
    ensures var m := Table[j].Test(s).value;
            0 < |m| && m <= s && IsLexeme(Table[j].kind, m) && Table[j].kind != Eoi
  {
    if j < 5 {
      LayoutRowShape(j, s);
    } else if j < 14 {
      FixedRowShape(j, s);
    } else {
      ValueRowShape(j, s);
    }
  }

  /** Rows 0-4: newlines, white space, comments. */
  lemma LayoutRowShape(j: nat, s: string)
    requires j < 5 && Table[j].Test(s).Some?
    ensures var m := Table[j].Test(s).value;
            0 < |m| && m <= s && IsLexeme(Table[j].kind, m) && Table[j].kind != Eoi
  {
    var m := Table[j].Test(s).value;
    if j == 3 {
      assert m[..2] == s[..2];
    } else if j == 4 {
      var e := FindCommentEnd(s, 2).value;
      assert m[..2] == s[..2];
      assert forall i :: 0 <= i < |m| ==> m[i] == s[i];
    }
  }

  /** Rows 5-13: punctuation and the keywords. */
  lemma FixedRowShape(j: nat, s: string)
    requires 5 <= j < 14 && Table[j].Test(s).Some?
    ensures var m := Table[j].Test(s).value;
            0 < |m| && m <= s && IsLexeme(Table[j].kind, m) && Table[j].kind != Eoi
  {
  }

  /** Rows 14-17: numbers and strings. */
  lemma ValueRowShape(j: nat, s: string)
    requires 14 <= j < |Table| && Table[j].Test(s).Some?
    ensures var m := Table[j].Test(s).value;
            0 < |m| && m <= s && IsLexeme(Table[j].kind, m) && Table[j].kind != Eoi
  {
    var m := Table[j].Test(s).value;
    if j == 14 {
      var i := RunEnd(s, 0, Digit);
      assert m[i] == '.' && AllDigits(m[..i]) && AllDigits(m[i + 1..]);
    } else if j == 15 {
      assert AllDigits(m);
    }
  }

  /** The table never produces an `Eoi`, and every match is a non-empty
      lexeme of its kind. */
  lemma FirstMatchShape(s: string)
    requires FirstMatch(s).Some?
    ensures var m := FirstMatch(s).value;
            0 < |m.text| && m.text <= s && IsLexeme(m.kind, m.text) && m.kind != Eoi
  {
    var m := FirstMatch(s).value;
    var j :| 0 <= j < |Table| && Table[j].kind == m.kind && Table[j].Test(s) == Some(m.text)
              && forall l :: 0 <= l < j ==> Table[l].Test(s).None?;
    TableRowShape(j, s);
  }

  // ---------------------------------------------------------------------
  // One step of the scan (get_token, tokenizer.rs:165-201)
  // ---------------------------------------------------------------------

  /** How `get_token` moves the position past a match: a newline by one
      character and one line whatever its length, a block comment through
      `add_from_str`, everything else by its length in columns. */
  function Advance(p: Position, kind: TokenKind, m: string): (q: Position)
    ensures kind != NewLine ==> q.cursor == p.cursor + |m|
    ensures kind == NewLine ==> q == Position(p.cursor + 1, p.line + 1, 0)
    ensures kind != NewLine && kind != BlockComment ==> q == p.AddColumns(|m|)
    ensures q.line >= p.line
  {
    match kind
    case NewLine => p.AddLineAndCursor()
    case BlockComment => p.AddFromStr(m)
    case _ => p.AddColumns(|m|)
  }

  function UnrecognizedMessage(rest: string): string {
    "unrecognized token: rest of input was '" + rest + "'"
  }

  const CommentsNotSupported: string := "comments are not supported"

  /** `get_token` at position `p`: the token recognized at the cursor and the
      position after it, or the error carrying the unconsumed rest. */
  function NextToken(src: string, p: Position): (r: (Result<Token>, Position))
    requires p.cursor <= |src|
    ensures !r.0.Panic?
    ensures r.0.Err? <==> FirstMatch(src[p.cursor..]).None?
    ensures r.0.Err? ==> r.0.message == UnrecognizedMessage(src[p.cursor..]) && r.1 == p
    ensures r.0.Ok? ==>
      && r.0.value.span == Span(p, r.1)
      && FirstMatch(src[p.cursor..]) == Some(Match(r.0.value.kind, r.0.value.raw))
      && p.cursor < r.1.cursor <= |src|
      && r.1.line >= p.line
  {
    var s := src[p.cursor..];
    match FirstMatch(s)
    case None => (Err(UnrecognizedMessage(s)), p)
    case Some(m) =>
      FirstMatchShape(s);
      var q := Advance(p, m.kind, m.text);
      (Ok(Token(m.kind, m.text, Span.New(p, q))), q)
  }

  // ---------------------------------------------------------------------
  // The scan loop (tokenize, tokenizer.rs:119-163)
  // ---------------------------------------------------------------------

  function EndOfInput(p: Position): Token {
    Token(Eoi, "", Span.Collapsed(p))
  }

  /** `tokenize`'s loop from position `p`, with `acc` pushed so far: the
      result, and where the scan position is left. */
  function Run(src: string, comments: bool, p: Position, acc: seq<Token>): (out: (Result<seq<Token>>, Position))
    requires p.cursor <= |src|
    ensures p.cursor <= out.1.cursor <= |src| && out.1.line >= p.line
    decreases |src| - p.cursor
  {
    if p.cursor >= |src| then (Ok(acc + [EndOfInput(p)]), p)
    else
      var (r, q) := NextToken(src, p);
      match r
      case Ok(t) =>
        if t.kind == NewLine || t.kind == WhiteSpace then Run(src, comments, q, acc)
        else if IsComment(t.kind) then
          if !comments then (Err(CommentsNotSupported), q) else Run(src, comments, q, acc)
        else Run(src, comments, q, acc + [t])
      case Err(e) => (Err(e), q)
      case Panic(e) => (Panic(e), q)
  }

  /** What `tokenize(source)` returns on a tokenizer built with `comments`. */
  function Tokenized(src: string, comments: bool): (r: Result<seq<Token>>)
  {
    Run(src, comments, Position.Start(), []).0
  }

  // ---------------------------------------------------------------------
  // The tokenizer object (tokenizer.rs:68-206)
  // ---------------------------------------------------------------------

  class Tokenizer {
    const specs: seq<TokenSpec>
    var position: Position
    var source: Option<string>
    const comments: bool

    ghost predicate Valid()
      reads this
    {
      specs == Table && (source.Some? ==> position.cursor <= |source.value|)
    }

    /** `Tokenizer::new(comments)`: the table, the start position, no source. */
    constructor (comments: bool)
      ensures Valid()
      ensures position == Position.Start() && source == None && this.comments == comments
    {
      specs := Table;
      position := Position.Start();
      source := None;
      this.comments := comments;
    }

    /** `reset`: back to the start position, with no source. */
    method Reset()
      requires Valid()
      modifies this`position, this`source
      ensures Valid()
      ensures position == Position.Start() && source == None
    {
      position := Position.Start();
      source := None;
    }

    /** `has_reached_end_of_source`; `unwrap` on the source, so one must be set. */
    predicate HasReachedEndOfSource()
      requires source.Some?
      reads this
    {
      position.cursor >= |source.value|
    }

    /** `get_token`: tries the rows in order; the first that matches decides
        the token and how far the position moves. */
    method GetToken() returns (r: Result<Token>)
      requires Valid() && source.Some?
      modifies this`position
      ensures Valid()
      ensures (r, position) == NextToken(source.value, old(position))
    {
      var s := source.value[position.cursor..];
      var oldPosition := position;
      for i := 0 to |specs|
        invariant FirstMatchFrom(specs, s, i) == FirstMatch(s)
        invariant position == oldPosition
      {
        var spec := specs[i];
        match spec.Test(s) {
          case Some(m) =>
            FirstMatchShape(s);
            if spec.kind == NewLine {
              position := position.AddLineAndCursor();
            } else if spec.kind == BlockComment {
              position := position.AddFromStr(m);
            } else {
              position := position.AddColumns(|m|);
            }
            return Ok(Token(spec.kind, m, Span.New(oldPosition, position)));
          case None =>
        }
      }
      return Err(UnrecognizedMessage(s));
    }

    /** `tokenize(source)`: steps through the source, dropping newlines and
        white space, rejecting comments unless they are enabled, and ends
        the list with the `Eoi` sentinel. */
    method Tokenize(src: string) returns (r: Result<seq<Token>>)
      requires Valid()
      modifies this`position, this`source
      ensures Valid() && source == Some(src)
      ensures (r, position) == Run(src, comments, Position.Start(), [])
      ensures r == Tokenized(src, comments)
    {
      Reset();
      source := Some(src);
      var result: seq<Token> := [];
      while !HasReachedEndOfSource()
        invariant Valid() && source == Some(src)
        invariant Run(src, comments, position, result) == Run(src, comments, Position.Start(), [])
        decreases |src| - position.cursor
      {
        var token :- GetToken();
        if token.kind == NewLine || token.kind == WhiteSpace {
          continue;
        } else if token.kind == LineComment || token.kind == BlockComment {
          if !comments {
            return Err(CommentsNotSupported);
          }
          continue;
        }
        result := result + [token];
      }
      result := result + [EndOfInput(position)];
      return Ok(result);
    }
  }
}
