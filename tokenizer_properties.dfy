/** Properties of the tokenizer (src/parser/tokenizer.rs): a reference
    scan that records every token the table recognizes, the loop proved to
    be its filter, and what that says about the token list. */
module TokenizerProperties {
  import opened Results
  import opened Nodes
  import opened Tokenizing
  // ---------------------------------------------------------------------
  // The reference: every token the table recognizes, then a filter
  // ---------------------------------------------------------------------

  /** Consecutive tokens meet: the first starts at `p`, each ends where the
      next starts, the last ends at `q`. */
  ghost predicate Chained(ts: seq<Token>, p: Position, q: Position)
    decreases |ts|
  {
    if |ts| == 0 then p == q
    else ts[0].span.start == p && Chained(ts[1..], ts[0].span.end, q)
  }

  /** A token as a step of the scan recognizes it at its start position. */
  ghost predicate Recognized(t: Token, src: string) {
    && t.span.start.cursor < |src|
    && FirstMatch(src[t.span.start.cursor..]) == Some(Match(t.kind, t.raw))
    && t.span.end == Advance(t.span.start, t.kind, t.raw)
  }

  /** Every token recognized from `p` until the source ends (`stuck` false) or
      no recognizer matches at `stop` (`stuck` true). */
  datatype Scan = Scan(tokens: seq<Token>, stop: Position, stuck: bool)

  function RawScan(src: string, p: Position): (sc: Scan)
    requires p.cursor <= |src|
    ensures p.cursor <= sc.stop.cursor <= |src|
    ensures sc.stuck <==> sc.stop.cursor < |src|
    ensures Chained(sc.tokens, p, sc.stop)
    decreases |src| - p.cursor
  {
    if p.cursor >= |src| then Scan([], p, false)
    else
      var (r, q) := NextToken(src, p);
      if !r.Ok? then Scan([], p, true)
      else
        var rest := RawScan(src, q);
        var ts := [r.value] + rest.tokens;
        assert ts[1..] == rest.tokens;
        Scan(ts, rest.stop, rest.stuck)
  }

  /** A scan stops early only where no row of the table matches. */
  lemma {:induction false} ScanStuck(src: string, p: Position)
    requires p.cursor <= |src|
    ensures var sc := RawScan(src, p); sc.stuck ==> FirstMatch(src[sc.stop.cursor..]).None?
    decreases |src| - p.cursor
  {
    if p.cursor < |src| && NextToken(src, p).0.Ok? {
      ScanStep(src, p);
      ScanStuck(src, NextToken(src, p).1);
    }
  }

  /** Every token of the scan is what the table recognizes at its start. */
  lemma {:induction false} ScanRecognized(src: string, p: Position)
    requires p.cursor <= |src|
    ensures forall i :: 0 <= i < |RawScan(src, p).tokens| ==> Recognized(RawScan(src, p).tokens[i], src)
    decreases |src| - p.cursor
  {
    if p.cursor < |src| && NextToken(src, p).0.Ok? {
      var (r, q) := NextToken(src, p);
      ScanStep(src, p);
      ScanRecognized(src, q);
      var ts := RawScan(src, p).tokens;
      var rest := RawScan(src, q).tokens;
      forall i | 0 <= i < |ts| ensures Recognized(ts[i], src) {
        if i > 0 { assert ts[i] == rest[i - 1]; }
      }
    }
  }

  /** The tokens handed to the parser: all but newlines, white space and
      comments, in order. */
  function Significant(ts: seq<Token>): (r: seq<Token>)
    ensures |r| <= |ts|
    ensures forall i :: 0 <= i < |r| ==> !IsSkipped(r[i].kind)
  {
    if |ts| == 0 then []
    else if IsSkipped(ts[0].kind) then Significant(ts[1..])
    else [ts[0]] + Significant(ts[1..])
  }

  ghost predicate HasComment(ts: seq<Token>) {
    exists i :: 0 <= i < |ts| && IsComment(ts[i].kind)
  }

  /** What `tokenize` makes of a scan: a comment (when comments are off) is
      rejected, an unrecognized rest is reported, and otherwise the
      significant tokens are followed by the `Eoi` sentinel. */
  ghost function FromScan(src: string, comments: bool, sc: Scan, acc: seq<Token>): Result<seq<Token>>
    requires sc.stop.cursor <= |src|
  {
    if !comments && HasComment(sc.tokens) then Err(CommentsNotSupported)
    else if sc.stuck then Err(UnrecognizedMessage(src[sc.stop.cursor..]))
    else Ok(acc + Significant(sc.tokens) + [EndOfInput(sc.stop)])
  }

  lemma HasCommentCons(t: Token, rest: seq<Token>)
    ensures HasComment([t] + rest) <==> IsComment(t.kind) || HasComment(rest)
  {
    var ts := [t] + rest;
    if IsComment(t.kind) { assert ts[0] == t; }
    if HasComment(rest) {
      var i :| 0 <= i < |rest| && IsComment(rest[i].kind);
      assert ts[i + 1] == rest[i];
    }
    if HasComment(ts) {
      var i :| 0 <= i < |ts| && IsComment(ts[i].kind);
      if i > 0 { assert rest[i - 1] == ts[i]; }
    }
  }

  /** The reference scan after one recognized token. */
  lemma ScanStep(src: string, p: Position)
    requires p.cursor < |src| && NextToken(src, p).0.Ok?
    ensures var t := NextToken(src, p).0.value;
            var rest := RawScan(src, NextToken(src, p).1);
            RawScan(src, p) == Scan([t] + rest.tokens, rest.stop, rest.stuck)
  {
  }

  /** What `tokenize`'s loop does with one recognized token. */
  lemma RunStep(src: string, comments: bool, p: Position, acc: seq<Token>)
    requires p.cursor < |src| && NextToken(src, p).0.Ok?
    ensures var t := NextToken(src, p).0.value;
            var q := NextToken(src, p).1;
            Run(src, comments, p, acc) ==
              if IsComment(t.kind) && !comments then (Err(CommentsNotSupported), q)
              else if IsSkipped(t.kind) then Run(src, comments, q, acc)
              else Run(src, comments, q, acc + [t])
  {
  }

  /** The loop keeps a significant token and moves on. */
  lemma RunKeeps(src: string, comments: bool, p: Position, acc: seq<Token>, t: Token, q: Position)
    requires p.cursor < |src| && NextToken(src, p) == (Ok(t), q) && !IsSkipped(t.kind)
    ensures Run(src, comments, p, acc) == Run(src, comments, q, acc + [t])
  {
  }

  /** The same step, read off the table's verdict on the rest of the source. */
  lemma RunKeepsMatch(src: string, comments: bool, p: Position, acc: seq<Token>, kind: TokenKind, m: string)
    requires p.cursor < |src| && FirstMatch(src[p.cursor..]) == Some(Match(kind, m))
    requires !IsSkipped(kind) && kind != BlockComment
    ensures Run(src, comments, p, acc)
         == Run(src, comments, p.AddColumns(|m|), acc + [Token(kind, m, Span(p, p.AddColumns(|m|)))])
  {
    RunKeeps(src, comments, p, acc, Token(kind, m, Span(p, p.AddColumns(|m|))), p.AddColumns(|m|));
  }

  /** At the end of the source the loop appends `Eoi`. */
  lemma RunEnds(src: string, comments: bool, p: Position, acc: seq<Token>)
    requires p.cursor == |src|
    ensures Run(src, comments, p, acc) == (Ok(acc + [EndOfInput(p)]), p)
  {
  }

  /** The first match on a double-quoted string is that string. */
  lemma QuotedFirstMatch(s: string, j: nat)
    requires 0 < j < |s| && s[0] == '"' && s[j] == '"'
    requires forall k :: 0 < k < j ==> s[k] != '"'
    ensures FirstMatch(s) == Some(Match(StringLiteral, s[..j + 1]))
  {
    assert FindChar(s, 1, '"') == Some(j);
    assert Table[16].Test(s) == Some(s[..j + 1]);
    FirstMatchAt(s, 16);
  }

  /** The kind of a one-character punctuation token. */
  function PunctuationKind(c: char): (r: Option<TokenKind>)
    ensures r.Some? ==> !IsSkipped(r.value) && r.value != BlockComment && r.value != StringLiteral
  {
    match c
    case ',' => Some(Comma)
    case ':' => Some(Colon)
    case '[' => Some(OpenSquareBracket)
    case ']' => Some(ClosedSquareBracket)
    case '{' => Some(OpenCurlyBrace)
    case '}' => Some(ClosedCurlyBrace)
    case _ => None
  }

  /** `t` is the punctuation character or the double-quoted string at `p`,
      spanning its text on the same line. */
  ghost predicate Recognizes(src: string, p: Position, t: Token) {
    && p.cursor < |src|
    && t.span == Span(p, p.AddColumns(|t.raw|))
    && if t.kind == StringLiteral then QuotedAt(src, p.cursor, t.raw)
       else PunctuationKind(src[p.cursor]) == Some(t.kind) && t.raw == [src[p.cursor]]
  }

  /** `m` is the double-quoted string at index `i` of `src`. */
  ghost predicate QuotedAt(src: string, i: nat, m: string) {
    && 2 <= |m| && i + |m| <= |src| && m == src[i..i + |m|]
    && m[0] == '"' && m[|m| - 1] == '"' && '"' !in m[1..|m| - 1]
  }

  /** Such a token is what the table finds there. */
  lemma RecognizedFirstMatch(src: string, p: Position, t: Token)
    requires Recognizes(src, p, t)
    ensures FirstMatch(src[p.cursor..]) == Some(Match(t.kind, t.raw))
    ensures !IsSkipped(t.kind) && t.kind != BlockComment
  {
    var s := src[p.cursor..];
    if t.kind == StringLiteral {
      QuotedRecognized(src, p.cursor, t.raw);
    } else {
      assert s[0] == src[p.cursor];
      PunctuationRecognized(s, t.kind);
    }
  }

  lemma PunctuationRecognized(s: string, k: TokenKind)
    requires |s| > 0 && PunctuationKind(s[0]) == Some(k)
    ensures FirstMatch(s) == Some(Match(k, [s[0]]))
  {
    PunctuationFirstMatch(s);
  }

  lemma QuotedRecognized(src: string, i: nat, m: string)
    requires i < |src| && QuotedAt(src, i, m)
    ensures FirstMatch(src[i..]) == Some(Match(StringLiteral, m))
  {
    var s, j := src[i..], |m| - 1;
    assert s[..j + 1] == m;
    forall k | 0 < k < j
      ensures s[k] != '"'
    {
      assert s[k] == m[1..j][k - 1];
    }
    QuotedFirstMatch(s, j);
  }

  /** `toks` is a run of such tokens from `p` to the end of `src`. */
  ghost predicate Lexes(src: string, p: Position, toks: seq<Token>)
    decreases |toks|
  {
    if toks == [] then p.cursor == |src|
    else Recognizes(src, p, toks[0]) && Lexes(src, p.AddColumns(|toks[0].raw|), toks[1..])
  }

  /** The punctuation character at `p` is recognized as such. */
  lemma RecognizesPunctuation(src: string, p: Position, q: Position)
    requires p.cursor < |src| && PunctuationKind(src[p.cursor]).Some? && q == p.AddColumns(1)
    ensures Recognizes(src, p, Token(PunctuationKind(src[p.cursor]).value, [src[p.cursor]], Span(p, q)))
  {
  }

  /** The `n` characters at `p` are a double-quoted string. */
  lemma RecognizesQuoted(src: string, p: Position, n: nat, q: Position)
    requires 2 <= n && p.cursor + n <= |src| && q == p.AddColumns(n)
    requires src[p.cursor] == '"' && src[p.cursor + n - 1] == '"' && '"' !in src[p.cursor + 1..p.cursor + n - 1]
    ensures Recognizes(src, p, Token(StringLiteral, src[p.cursor..p.cursor + n], Span(p, q)))
  {
    var m := src[p.cursor..p.cursor + n];
    var inner, between := m[1..n - 1], src[p.cursor + 1..p.cursor + n - 1];
    assert inner == between by {
      forall k | 0 <= k < |inner|
        ensures inner[k] == between[k]
      {
        assert inner[k] == m[k + 1];
      }
    }
  }

  lemma LexesCons(src: string, p: Position, t: Token, rest: seq<Token>)
    requires Recognizes(src, p, t) && Lexes(src, p.AddColumns(|t.raw|), rest)
    ensures Lexes(src, p, [t] + rest)
  {
    assert ([t] + rest)[1..] == rest;
  }

  /** A punctuation character in front of a lexed rest. */
  lemma PunctuationLexes(src: string, p: Position, t: Token, rest: seq<Token>)
    requires p.cursor < |src| && PunctuationKind(src[p.cursor]).Some?
    requires t == Token(PunctuationKind(src[p.cursor]).value, [src[p.cursor]], Span(p, p.AddColumns(1)))
    requires Lexes(src, p.AddColumns(1), rest)
    ensures Lexes(src, p, [t] + rest)
  {
    RecognizesPunctuation(src, p, p.AddColumns(1));
    LexesCons(src, p, t, rest);
  }

  /** A double-quoted string closing at `j` in front of a lexed rest. */
  lemma QuotedLexes(src: string, p: Position, j: nat, t: Token, rest: seq<Token>)
    requires p.cursor < j < |src| && src[p.cursor] == '"' && src[j] == '"' && '"' !in src[p.cursor + 1..j]
    requires t == Token(StringLiteral, src[p.cursor..j + 1], Span(p, p.AddColumns(j + 1 - p.cursor)))
    requires Lexes(src, p.AddColumns(j + 1 - p.cursor), rest)
    ensures Lexes(src, p, [t] + rest)
  {
    RecognizesQuoted(src, p, j + 1 - p.cursor, t.span.end);
    LexesCons(src, p, t, rest);
  }

  /** Where a scan over `toks` from `p` ends. */
  function LexEnd(p: Position, toks: seq<Token>): Position
    decreases |toks|
  {
    if toks == [] then p else LexEnd(p.AddColumns(|toks[0].raw|), toks[1..])
  }

  /** Over such a source the loop pushes exactly `toks`, then `Eoi`. */
  lemma {:induction false} RunLexes(src: string, comments: bool, p: Position, acc: seq<Token>, toks: seq<Token>)
    requires p.cursor <= |src| && Lexes(src, p, toks)
    ensures Run(src, comments, p, acc) == (Ok(acc + toks + [EndOfInput(LexEnd(p, toks))]), LexEnd(p, toks))
    decreases |toks|
  {
    if toks == [] {
      RunEnds(src, comments, p, acc);
      assert acc + toks == acc;
    } else {
      var t, rest := toks[0], toks[1..];
      var q := p.AddColumns(|t.raw|);
      RunLexesStep(src, comments, p, acc, t, rest);
      RunLexes(src, comments, q, acc + [t], rest);
      assert acc + [t] + rest == acc + toks;
    }
  }

  /** The first step of such a scan. */
  lemma RunLexesStep(src: string, comments: bool, p: Position, acc: seq<Token>, t: Token, rest: seq<Token>)
    requires p.cursor <= |src| && Lexes(src, p, [t] + rest)
    ensures Lexes(src, p.AddColumns(|t.raw|), rest)
    ensures Run(src, comments, p, acc) == Run(src, comments, p.AddColumns(|t.raw|), acc + [t])
  {
    assert ([t] + rest)[0] == t && ([t] + rest)[1..] == rest;
    var q := p.AddColumns(|t.raw|);
    assert t == Token(t.kind, t.raw, Span(p, q));
    RecognizedFirstMatch(src, p, t);
    RunKeepsMatch(src, comments, p, acc, t.kind, t.raw);
  }

  /** The scan's verdict after one recognized token. */
  lemma FromScanStep(src: string, comments: bool, t: Token, rest: Scan, acc: seq<Token>)
    requires rest.stop.cursor <= |src|
    ensures FromScan(src, comments, Scan([t] + rest.tokens, rest.stop, rest.stuck), acc) ==
              if IsComment(t.kind) && !comments then Err(CommentsNotSupported)
              else if IsSkipped(t.kind) then FromScan(src, comments, rest, acc)
              else FromScan(src, comments, rest, acc + [t])
  {
    var ts := [t] + rest.tokens;
    assert ts[1..] == rest.tokens;
    HasCommentCons(t, rest.tokens);
    assert Significant(ts) == (if IsSkipped(t.kind) then [] else [t]) + Significant(rest.tokens);
    var e := [EndOfInput(rest.stop)];
    if !IsSkipped(t.kind) {
      assert acc + [t] + Significant(rest.tokens) + e == acc + Significant(ts) + e;
    } else {
      assert Significant(ts) == Significant(rest.tokens);
    }
  }

  /** The loop is the filter over the reference scan. */
  lemma {:induction false} RunIsFilteredScan(src: string, comments: bool, p: Position, acc: seq<Token>)
    requires p.cursor <= |src|
    ensures Run(src, comments, p, acc).0 == FromScan(src, comments, RawScan(src, p), acc)
    decreases |src| - p.cursor
  {
    if p.cursor < |src| {
      var r := NextToken(src, p).0;
      var q := NextToken(src, p).1;
      if r.Ok? {
        var t := r.value;
        ScanStep(src, p);
        RunStep(src, comments, p, acc);
        FromScanStep(src, comments, t, RawScan(src, q), acc);
        if IsSkipped(t.kind) {
          if comments || !IsComment(t.kind) {
            RunIsFilteredScan(src, comments, q, acc);
          }
        } else {
          RunIsFilteredScan(src, comments, q, acc + [t]);
        }
      } else {
        assert RawScan(src, p) == Scan([], p, true);
        assert !HasComment([]);
      }
    } else {
      assert RawScan(src, p) == Scan([], p, false);
      assert !HasComment([]) && Significant([]) == [];
      assert acc + Significant([]) + [EndOfInput(p)] == acc + [EndOfInput(p)];
    }
  }

  // ---------------------------------------------------------------------
  // Properties of the tokenizer's output
  // ---------------------------------------------------------------------

  /** A recognized token covers a non-empty stretch of the source after its
      start, and its text is a lexeme of its kind. Except for a two-character
      newline, the text is exactly the source between its start and end. */
  lemma RecognizedFacts(t: Token, src: string)
    requires Recognized(t, src)
    ensures t.span.start.cursor < t.span.end.cursor <= |src|
    ensures t.span.end.line >= t.span.start.line
    ensures IsLexeme(t.kind, t.raw) && t.kind != Eoi
    ensures t.raw <= src[t.span.start.cursor..]
    ensures t.kind != NewLine || t.raw == "\n" ==> t.raw == src[t.span.start.cursor..t.span.end.cursor]
    ensures t.kind != NewLine && t.kind != BlockComment ==> t.span.end == t.span.start.AddColumns(|t.raw|)
  {
    FirstMatchShape(src[t.span.start.cursor..]);
  }

  /** A token that covers at least one character, lines not decreasing. */
  ghost predicate Moves(t: Token) {
    t.span.start.cursor < t.span.end.cursor && t.span.start.line <= t.span.end.line
  }

  lemma RecognizedMove(ts: seq<Token>, src: string)
    requires forall i :: 0 <= i < |ts| ==> Recognized(ts[i], src)
    ensures forall i :: 0 <= i < |ts| ==> Moves(ts[i])
  {
    forall i | 0 <= i < |ts| ensures Moves(ts[i]) {
      RecognizedFacts(ts[i], src);
    }
  }

  /** Chained tokens that move lie in order between the scan's start and
      stop, lines never decreasing. */
  lemma {:induction false} ChainedInOrder(ts: seq<Token>, p: Position, q: Position)
    requires Chained(ts, p, q)
    requires forall i :: 0 <= i < |ts| ==> Moves(ts[i])
    ensures p.cursor <= q.cursor && p.line <= q.line
    ensures forall i :: 0 <= i < |ts| ==>
              p.cursor <= ts[i].span.start.cursor && ts[i].span.end.cursor <= q.cursor
              && p.line <= ts[i].span.start.line
    ensures InSourceOrder(ts)
    decreases |ts|
  {
    if |ts| > 0 {
      var rest := ts[1..];
      assert forall i :: 0 <= i < |rest| ==> rest[i] == ts[i + 1];
      assert Moves(ts[0]);
      ChainedInOrder(rest, ts[0].span.end, q);
      assert ts == [ts[0]] + rest;
      PrependInOrder(ts[0], rest);
    }
  }

  lemma PrependInOrder(t: Token, ts: seq<Token>)
    requires InSourceOrder(ts)
    requires forall i :: 0 <= i < |ts| ==> t.span.end.cursor <= ts[i].span.start.cursor
    ensures InSourceOrder([t] + ts)
  {
    var r := [t] + ts;
    forall i, j | 0 <= i < j < |r|
      ensures r[i].span.end.cursor <= r[j].span.start.cursor
    {
      assert r[j] == ts[j - 1];
      if i > 0 { assert r[i] == ts[i - 1]; }
    }
  }

  /** Each token ends before any later one starts. */
  ghost predicate InSourceOrder(ts: seq<Token>) {
    forall i, j :: 0 <= i < j < |ts| ==> ts[i].span.end.cursor <= ts[j].span.start.cursor
  }

  ghost predicate StartAtOrAfter(ts: seq<Token>, lo: nat) {
    forall i :: 0 <= i < |ts| ==> lo <= ts[i].span.start.cursor
  }

  /** Every significant token is a token of the scan. */
  lemma {:induction false} SignificantFromScan(ts: seq<Token>)
    ensures forall i :: 0 <= i < |Significant(ts)| ==> Significant(ts)[i] in ts
    decreases |ts|
  {
    if |ts| > 0 {
      var rest := ts[1..];
      SignificantFromScan(rest);
      var sr := Significant(rest);
      forall i | 0 <= i < |sr| ensures sr[i] in ts {
        var k :| 0 <= k < |rest| && rest[k] == sr[i];
        assert ts[k + 1] == rest[k];
      }
    }
  }

  lemma {:induction false} SignificantStartAtOrAfter(ts: seq<Token>, lo: nat)
    requires StartAtOrAfter(ts, lo)
    ensures StartAtOrAfter(Significant(ts), lo)
    decreases |ts|
  {
    if |ts| > 0 {
      var rest := ts[1..];
      assert StartAtOrAfter(rest, lo) by {
        forall k | 0 <= k < |rest| ensures lo <= rest[k].span.start.cursor {
          assert rest[k] == ts[k + 1];
        }
      }
      SignificantStartAtOrAfter(rest, lo);
      if !IsSkipped(ts[0].kind) {
        var r := Significant(ts);
        var sr := Significant(rest);
        forall k | 0 <= k < |r| ensures lo <= r[k].span.start.cursor {
          if k > 0 { assert r[k] == sr[k - 1]; }
        }
      }
    }
  }

  /** The significant tokens keep the order of the scan. */
  lemma {:induction false} SignificantInOrder(ts: seq<Token>)
    requires InSourceOrder(ts)
    ensures InSourceOrder(Significant(ts))
    decreases |ts|
  {
    if |ts| > 0 {
      var rest := ts[1..];
      assert InSourceOrder(rest) by {
        forall i, j | 0 <= i < j < |rest|
          ensures rest[i].span.end.cursor <= rest[j].span.start.cursor
        {
          assert rest[i] == ts[i + 1] && rest[j] == ts[j + 1];
        }
      }
      SignificantInOrder(rest);
      if !IsSkipped(ts[0].kind) {
        var r := Significant(ts);
        var sr := Significant(rest);
        assert StartAtOrAfter(rest, ts[0].span.end.cursor) by {
          forall k | 0 <= k < |rest| ensures ts[0].span.end.cursor <= rest[k].span.start.cursor {
            assert rest[k] == ts[k + 1];
          }
        }
        SignificantStartAtOrAfter(rest, ts[0].span.end.cursor);
        forall i, j | 0 <= i < j < |r|
          ensures r[i].span.end.cursor <= r[j].span.start.cursor
        {
          assert r[j] == sr[j - 1];
          if i > 0 {
            assert r[i] == sr[i - 1];
          }
        }
      }
    }
  }

  /** The token list `tokenize` hands to the parser: an `Eoi` sentinel last
      and nowhere else, every token's text a lexeme of its kind and exactly
      the source it spans, tokens in source order. */
  ghost predicate WellFormedToken(t: Token, src: string) {
    && t.span.start.cursor <= t.span.end.cursor <= |src|
    && t.raw == src[t.span.start.cursor..t.span.end.cursor]
    && IsLexeme(t.kind, t.raw)
  }

  ghost predicate WellFormedTokens(ts: seq<Token>, src: string) {
    && |ts| > 0
    && ts[|ts| - 1].kind == Eoi
    && (forall i :: 0 <= i < |ts| - 1 ==> ts[i].kind != Eoi)
    && (forall i :: 0 <= i < |ts| ==> WellFormedToken(ts[i], src))
    && InSourceOrder(ts)
  }

  /** A successful `tokenize` consumed the whole source: it returns the
      significant tokens of the scan, then `Eoi` at the end of the source;
      no newline, white space or comment token is among them. */
  lemma TokenizeSuccess(src: string, comments: bool)
    requires Tokenized(src, comments).Ok?
    ensures !RawScan(src, Position.Start()).stuck
    ensures RawScan(src, Position.Start()).stop.cursor == |src|
    ensures !comments ==> !HasComment(RawScan(src, Position.Start()).tokens)
    ensures Tokenized(src, comments).value
            == Significant(RawScan(src, Position.Start()).tokens) + [EndOfInput(RawScan(src, Position.Start()).stop)]
  {
    TokenizedIsScan(src, comments);
  }

  lemma TokenizedIsScan(src: string, comments: bool)
    ensures var sc := RawScan(src, Position.Start());
            Tokenized(src, comments).Ok? ==>
              && !sc.stuck && sc.stop.cursor == |src| && (!comments ==> !HasComment(sc.tokens))
              && Tokenized(src, comments).value == Significant(sc.tokens) + [EndOfInput(sc.stop)]
  {
    var sc := RawScan(src, Position.Start());
    var r := Tokenized(src, comments);
    ScanBounds(src, Position.Start(), sc);
    TokenizedIsFilteredScan(src, comments, sc, r);
    if r.Ok? {
      FromScanSuccess(src, comments, sc, r);
    }
  }

  lemma ScanBounds(src: string, p: Position, sc: Scan)
    requires p.cursor <= |src| && sc == RawScan(src, p)
    ensures sc.stop.cursor <= |src| && (sc.stuck <==> sc.stop.cursor < |src|)
  {
  }

  lemma TokenizedIsFilteredScan(src: string, comments: bool, sc: Scan, r: Result<seq<Token>>)
    requires sc == RawScan(src, Position.Start()) && r == Tokenized(src, comments)
    requires sc.stop.cursor <= |src|
    ensures r == FromScan(src, comments, sc, [])
  {
    RunIsFilteredScan(src, comments, Position.Start(), []);
  }

  lemma FromScanSuccess(src: string, comments: bool, sc: Scan, r: Result<seq<Token>>)
    requires sc.stop.cursor <= |src| && (sc.stuck <==> sc.stop.cursor < |src|)
    requires r == FromScan(src, comments, sc, []) && r.Ok?
    ensures !sc.stuck && sc.stop.cursor == |src| && (!comments ==> !HasComment(sc.tokens))
    ensures r.value == Significant(sc.tokens) + [EndOfInput(sc.stop)]
  {
    assert [] + Significant(sc.tokens) == Significant(sc.tokens);
  }

  /** The last token of a successful `tokenize` is `Eoi` at the end of the
      source, and none of its tokens is a newline, white space or comment. */
  lemma TokenizeShape(src: string, comments: bool)
    requires Tokenized(src, comments).Ok?
    ensures var ts := Tokenized(src, comments).value;
            && |ts| > 0 && ts[|ts| - 1].kind == Eoi && ts[|ts| - 1].span.start.cursor == |src|
            && forall i :: 0 <= i < |ts| ==> !IsSkipped(ts[i].kind)
  {
    TokenizeSuccess(src, comments);
    var sc := RawScan(src, Position.Start());
    EndedShape(Significant(sc.tokens), sc.stop);
  }

  lemma EndedShape(sig: seq<Token>, stop: Position)
    requires forall i :: 0 <= i < |sig| ==> !IsSkipped(sig[i].kind)
    ensures var ts := sig + [EndOfInput(stop)];
            && |ts| > 0 && ts[|ts| - 1].kind == Eoi && ts[|ts| - 1].span.start == stop
            && forall i :: 0 <= i < |ts| ==> !IsSkipped(ts[i].kind)
  {
    var ts := sig + [EndOfInput(stop)];
    forall i | 0 <= i < |ts| ensures !IsSkipped(ts[i].kind) {
      if i < |sig| {
        assert ts[i] == sig[i];
      }
    }
  }

  /** Everything `tokenize` returns on success is well formed. */
  lemma TokenizeWellFormed(src: string, comments: bool)
    requires Tokenized(src, comments).Ok?
    ensures WellFormedTokens(Tokenized(src, comments).value, src)
  {
    TokenizeSuccess(src, comments);
    ScanWellFormed(src, RawScan(src, Position.Start()).tokens, RawScan(src, Position.Start()).stop);
  }

  /** The significant tokens of a scan, then `Eoi`, are well formed. */
  lemma ScanWellFormed(src: string, ts: seq<Token>, stop: Position)
    requires ts == RawScan(src, Position.Start()).tokens && stop == RawScan(src, Position.Start()).stop
    ensures WellFormedTokens(Significant(ts) + [EndOfInput(stop)], src)
  {
    var e := EndOfInput(stop);
    ScanSignificantFacts(src, ts, stop);
    assert e.span.start == stop && WellFormedToken(e, src);
    EndedWellFormed(Significant(ts), e, src);
  }

  /** The significant tokens of a scan are in order and well formed. */
  lemma ScanSignificantFacts(src: string, ts: seq<Token>, stop: Position)
    requires ts == RawScan(src, Position.Start()).tokens && stop == RawScan(src, Position.Start()).stop
    ensures InSourceOrder(Significant(ts))
    ensures forall i :: 0 <= i < |Significant(ts)| ==>
              && WellFormedToken(Significant(ts)[i], src)
              && Significant(ts)[i].kind != Eoi
              && Significant(ts)[i].span.end.cursor <= stop.cursor
  {
    ScanRecognized(src, Position.Start());
    RecognizedMove(ts, src);
    ChainedInOrder(ts, Position.Start(), stop);
    SignificantInOrder(ts);
    SignificantWellFormed(ts, src, stop.cursor);
  }

  /** The significant tokens of a scan are well formed, and none is `Eoi`. */
  lemma SignificantWellFormed(ts: seq<Token>, src: string, stop: nat)
    requires forall i :: 0 <= i < |ts| ==> Recognized(ts[i], src) && ts[i].span.end.cursor <= stop
    ensures forall i :: 0 <= i < |Significant(ts)| ==>
              && WellFormedToken(Significant(ts)[i], src)
              && Significant(ts)[i].kind != Eoi
              && Significant(ts)[i].span.end.cursor <= stop
  {
    SignificantFromScan(ts);
    var sig := Significant(ts);
    forall i | 0 <= i < |sig|
      ensures WellFormedToken(sig[i], src) && sig[i].kind != Eoi && sig[i].span.end.cursor <= stop
    {
      var k :| 0 <= k < |ts| && ts[k] == sig[i];
      RecognizedFacts(ts[k], src);
    }
  }

  /** Well-formed tokens in order, then `Eoi` after all of them. */
  lemma EndedWellFormed(sig: seq<Token>, e: Token, src: string)
    requires InSourceOrder(sig)
    requires forall i :: 0 <= i < |sig| ==>
               WellFormedToken(sig[i], src) && sig[i].kind != Eoi && sig[i].span.end.cursor <= e.span.start.cursor
    requires WellFormedToken(e, src) && e.kind == Eoi
    ensures WellFormedTokens(sig + [e], src)
  {
    var ts := sig + [e];
    forall i | 0 <= i < |ts|
      ensures WellFormedToken(ts[i], src)
    {
      if i < |sig| { assert ts[i] == sig[i]; }
    }
    forall i | 0 <= i < |ts| - 1
      ensures ts[i].kind != Eoi
    {
      assert ts[i] == sig[i];
    }
    AppendInOrder(sig, e);
  }

  lemma AppendInOrder(ts: seq<Token>, e: Token)
    requires InSourceOrder(ts)
    requires forall i :: 0 <= i < |ts| ==> ts[i].span.end.cursor <= e.span.start.cursor
    ensures InSourceOrder(ts + [e])
  {
    var r := ts + [e];
    forall i, j | 0 <= i < j < |r|
      ensures r[i].span.end.cursor <= r[j].span.start.cursor
    {
      assert r[i] == ts[i];
      if j < |ts| { assert r[j] == ts[j]; }
    }
  }

  /** With comments disabled, a comment anywhere in the scan fails the whole
      run with "comments are not supported"; without any comment, the flag
      makes no difference. */
  lemma CommentPolicy(src: string)
    ensures HasComment(RawScan(src, Position.Start()).tokens) ==> Tokenized(src, false) == Err(CommentsNotSupported)
    ensures !HasComment(RawScan(src, Position.Start()).tokens) ==> Tokenized(src, false) == Tokenized(src, true)
  {
    RunIsFilteredScan(src, false, Position.Start(), []);
    RunIsFilteredScan(src, true, Position.Start(), []);
  }

  /** When no recognizer matches at some position (and no disallowed comment
      comes first), `tokenize` reports the whole unconsumed rest of the
      source. It never aborts. */
  lemma TokenizeFailure(src: string, comments: bool)
    ensures !Tokenized(src, comments).Panic?
    ensures var sc := RawScan(src, Position.Start());
            sc.stuck && (comments || !HasComment(sc.tokens)) ==>
              && FirstMatch(src[sc.stop.cursor..]).None?
              && Tokenized(src, comments) == Err(UnrecognizedMessage(src[sc.stop.cursor..]))
    ensures Tokenized(src, comments).Err? ==>
              Tokenized(src, comments).message == CommentsNotSupported
              || RawScan(src, Position.Start()).stuck
  {
    RunIsFilteredScan(src, comments, Position.Start(), []);
    ScanStuck(src, Position.Start());
  }

  /** No lexeme starts with a carriage return. */
  lemma LexemeHead(k: TokenKind, m: string)
    requires IsLexeme(k, m) && |m| > 0
    ensures m[0] != '\r'
  {
    if k == NumberLiteral && !AllDigits(m) {
      var i :| 0 < i < |m| - 1 && m[i] == '.' && AllDigits(m[..i]) && AllDigits(m[i + 1..]);
      assert m[..i][0] == m[0];
    } else if k == LineComment || k == BlockComment {
      assert m[..2][0] == m[0];
    }
  }

  /** No recognizer accepts text that starts with a carriage return. */
  lemma NothingStartsWithCarriageReturn(s: string)
    requires |s| > 0 && s[0] == '\r'
    ensures FirstMatch(s).None?
  {
    if FirstMatch(s).Some? {
      var m := FirstMatch(s).value;
      FirstMatchShape(s);
      LexemeHead(m.kind, m.text);
    }
  }

  /** The scan consumes only the newline of a two-character newline, so the
      next step finds the carriage return, which nothing recognizes: the scan
      stops right there. */
  lemma {:induction false} NewLineCarriageReturnStopsScan(src: string, p: Position, i: nat)
    requires p.cursor <= |src|
    requires i < |RawScan(src, p).tokens| && RawScan(src, p).tokens[i].raw == "\n\r"
    ensures var sc := RawScan(src, p);
            && i == |sc.tokens| - 1
            && sc.stuck
            && src[sc.stop.cursor] == '\r'
    decreases |src| - p.cursor
  {
    var (r, q) := NextToken(src, p);
    assert r.Ok?;
    var rest := RawScan(src, q);
    ScanStep(src, p);
    if i == 0 {
      NewLineCarriageReturnStep(src, p);
    } else {
      assert RawScan(src, p).tokens[i] == rest.tokens[i - 1];
      NewLineCarriageReturnStopsScan(src, q, i - 1);
    }
  }

  /** The step that recognizes a two-character newline leaves the cursor on
      its carriage return, where the scan stops. */
  lemma NewLineCarriageReturnStep(src: string, p: Position)
    requires p.cursor < |src| && NextToken(src, p).0.Ok? && NextToken(src, p).0.value.raw == "\n\r"
    ensures var q := NextToken(src, p).1;
            && q.cursor == p.cursor + 1 && q.cursor < |src| && src[q.cursor] == '\r'
            && RawScan(src, q) == Scan([], q, true)
  {
    var (r, q) := NextToken(src, p);
    FirstMatchShape(src[p.cursor..]);
    assert r.value.kind == NewLine;
    assert src[p.cursor..][1] == '\r';
    StuckAtCarriageReturn(src, q);
  }

  /** The scan stops at a carriage return. */
  lemma StuckAtCarriageReturn(src: string, q: Position)
    requires q.cursor < |src| && src[q.cursor] == '\r'
    ensures RawScan(src, q) == Scan([], q, true)
  {
    assert src[q.cursor..][0] == '\r';
    NothingStartsWithCarriageReturn(src[q.cursor..]);
    assert NextToken(src, q).0.Err?;
  }

  /** Consequently a source with a two-character newline that the scan
      reaches never tokenizes. */
  lemma NewLineCarriageReturnFails(src: string, comments: bool, i: nat)
    requires i < |RawScan(src, Position.Start()).tokens|
    requires RawScan(src, Position.Start()).tokens[i].raw == "\n\r"
    ensures Tokenized(src, comments).Err?
  {
    NewLineCarriageReturnStopsScan(src, Position.Start(), i);
    RunIsFilteredScan(src, comments, Position.Start(), []);
  }

  /** The characters a pattern's match can begin with. */
  predicate CanStart(p: Pattern, c: char) {
    match p
    case Literal(text) => |text| == 0 || text[0] == c
    case Blanks => IsBlank(c)
    case LineCommentText => c == '/'
    case BlockCommentText => c == '/'
    case Keyword(word) => |word| == 0 || word[0] == c
    case DecimalNumber => IsDigit(c)
    case IntegerNumber => IsDigit(c)
    case Quoted(q) => c == q
  }

  lemma FindNeedsStart(p: Pattern, s: string)
    requires |s| > 0 && p.Find(s).Some?
    ensures CanStart(p, s[0])
  {
    match p
    case Literal(text) =>
      if |text| > 0 { assert text[0] == s[0]; }
    case Keyword(word) =>
      if |word| > 0 { assert word[0] == s[0]; }
    case LineCommentText =>
      assert "//"[0] == s[0];
    case BlockCommentText =>
      assert "/*"[0] == s[0];
    case _ =>
  }

  /** Rows that fail can be skipped. */
  lemma {:induction false} SkipFailingRows(specs: seq<TokenSpec>, s: string, i: nat, j: nat)
    requires i <= j <= |specs|
    requires forall l :: i <= l < j ==> specs[l].Test(s).None?
    ensures FirstMatchFrom(specs, s, i) == FirstMatchFrom(specs, s, j)
    decreases j - i
  {
    if i < j {
      SkipFailingRow(specs, s, i);
      SkipFailingRows(specs, s, i + 1, j);
    }
  }

  /** One failing row can be skipped. */
  lemma SkipFailingRow(specs: seq<TokenSpec>, s: string, i: nat)
    requires i < |specs| && specs[i].Test(s).None?
    ensures FirstMatchFrom(specs, s, i) == FirstMatchFrom(specs, s, i + 1)
  {
  }

  /** A row wins as soon as no earlier row can even begin with the first
      character: the first-match rule, row by row. */
  lemma FirstMatchAt(s: string, j: nat)
    requires |s| > 0 && j < |Table|
    requires forall l :: 0 <= l < j ==> !CanStart(Table[l].pattern, s[0])
    requires Table[j].Test(s).Some?
    ensures FirstMatch(s) == Some(Match(Table[j].kind, Table[j].Test(s).value))
  {
    forall l | 0 <= l < j ensures Table[l].Test(s).None? {
      if Table[l].Test(s).Some? {
        FindNeedsStart(Table[l].pattern, s);
      }
    }
    SkipFailingRows(Table, s, 0, j);
  }

  /** Each punctuation character is a token of its own, whatever follows. */
  lemma PunctuationFirstMatch(s: string)
    requires |s| > 0
    ensures s[0] == ',' ==> FirstMatch(s) == Some(Match(Comma, ","))
    ensures s[0] == ':' ==> FirstMatch(s) == Some(Match(Colon, ":"))
    ensures s[0] == '[' ==> FirstMatch(s) == Some(Match(OpenSquareBracket, "["))
    ensures s[0] == ']' ==> FirstMatch(s) == Some(Match(ClosedSquareBracket, "]"))
    ensures s[0] == '{' ==> FirstMatch(s) == Some(Match(OpenCurlyBrace, "{"))
    ensures s[0] == '}' ==> FirstMatch(s) == Some(Match(ClosedCurlyBrace, "}"))
  {
    if s[0] == ',' { PunctuationRow(s, 5, Comma); }
    else if s[0] == ':' { PunctuationRow(s, 6, Colon); }
    else if s[0] == '[' { PunctuationRow(s, 7, OpenSquareBracket); }
    else if s[0] == ']' { PunctuationRow(s, 8, ClosedSquareBracket); }
    else if s[0] == '{' { PunctuationRow(s, 9, OpenCurlyBrace); }
    else if s[0] == '}' { PunctuationRow(s, 10, ClosedCurlyBrace); }
  }

  /** Row `j`, a one-character literal, wins on its character. */
  lemma PunctuationRow(s: string, j: nat, kind: TokenKind)
    requires |s| > 0 && 5 <= j <= 10 && Table[j] == TokenSpec(kind, Literal([s[0]]))
    ensures FirstMatch(s) == Some(Match(kind, [s[0]]))
  {
    assert [s[0]] <= s;
    FirstMatchAt(s, j);
  }

  /** A run is determined by where its class stops. */
  lemma {:induction false} RunEndIs(s: string, i: nat, j: nat, cls: CharClass)
    requires i <= j <= |s|
    requires forall k :: i <= k < j ==> InClass(s[k], cls)
    requires j == |s| || !InClass(s[j], cls)
    ensures RunEnd(s, i, cls) == j
    decreases j - i
  {
    if i < j {
      RunEndIs(s, i + 1, j, cls);
    }
  }

  /** Digits, a point and a digit make one decimal number (`1.5`, never `1`
      then something else): the decimal row comes before the integer row,
      which on its own would stop at the point. */
  lemma DecimalBeforeInteger(s: string, i: nat)
    requires 0 < i && i + 1 < |s| && s[i] == '.' && IsDigit(s[i + 1])
    requires AllDigits(s[..i])
    ensures FirstMatch(s) == Some(Match(NumberLiteral, s[..RunEnd(s, i + 1, Digit)]))
    ensures Table[15].Test(s) == Some(s[..i])
  {
    assert forall k :: 0 <= k < i ==> IsDigit(s[k]) by {
      forall k | 0 <= k < i ensures IsDigit(s[k]) {
        assert s[..i][k] == s[k];
      }
    }
    RunEndIs(s, 0, i, Digit);
    var j := RunEnd(s, i + 1, Digit);
    assert Table[14].Test(s) == Some(s[..j]) by {
      assert Table[14].pattern == DecimalNumber;
    }
    assert Table[15].Test(s) == Some(s[..i]) by {
      assert Table[15].pattern == IntegerNumber;
    }
    assert forall l :: 0 <= l < 14 ==> !CanStart(Table[l].pattern, s[0]) by {
      assert IsDigit(s[0]);
    }
    FirstMatchAt(s, 14);
  }

  /** A line break is the two-character `\n\r` when it can be, and `\n`
      otherwise. */
  lemma NewLineFirstMatch(s: string)
    requires |s| > 0 && s[0] == '\n'
    ensures |s| > 1 && s[1] == '\r' ==> FirstMatch(s) == Some(Match(NewLine, "\n\r"))
    ensures (|s| == 1 || s[1] != '\r') ==> FirstMatch(s) == Some(Match(NewLine, "\n"))
  {
    if |s| > 1 && s[1] == '\r' {
      assert "\n\r" <= s;
      FirstMatchAt(s, 0);
    } else {
      assert Table[0].Test(s).None?;
      assert Table[1].Test(s) == Some("\n");
      assert FirstMatch(s) == FirstMatchFrom(Table, s, 1);
    }
  }

  /** A keyword at the start of the input, not followed by a word
      character, is that keyword's token. */
  lemma KeywordFirstMatch(s: string)
    ensures "null" <= s && (|s| == 4 || !IsWordChar(s[4])) ==>
              FirstMatch(s) == Some(Match(NullLiteral, "null"))
    ensures "false" <= s && (|s| == 5 || !IsWordChar(s[5])) ==>
              FirstMatch(s) == Some(Match(BooleanLiteral, "false"))
    ensures "true" <= s && (|s| == 4 || !IsWordChar(s[4])) ==>
              FirstMatch(s) == Some(Match(BooleanLiteral, "true"))
  {
    if "null" <= s && (|s| == 4 || !IsWordChar(s[4])) {
      assert s[0] == 'n' && IsWordChar(s[3]);
      assert Table[11].Test(s) == Some("null");
      FirstMatchAt(s, 11);
    }
    if "false" <= s && (|s| == 5 || !IsWordChar(s[5])) {
      assert s[0] == 'f' && IsWordChar(s[4]);
      assert Table[12].Test(s) == Some("false");
      FirstMatchAt(s, 12);
    }
    if "true" <= s && (|s| == 4 || !IsWordChar(s[4])) {
      assert s[0] == 't' && IsWordChar(s[3]);
      assert Table[13].Test(s) == Some("true");
      FirstMatchAt(s, 13);
    }
  }

  /** A keyword followed by a word character is not a keyword, and nothing
      else in the table starts with its letter, so the scan stops there. */
  lemma KeywordNeedsBoundary()
    ensures FirstMatch("nullx").None?
  {
    var s := "nullx";
    assert "null" <= s && IsWordChar(s[4]) && IsWordChar(s[3]);
    assert !IsBoundary(s, 4);
    assert Table[11].Test(s).None?;
    forall l | 0 <= l < |Table| && l != 11 ensures Table[l].Test(s).None? {
      if Table[l].Test(s).Some? {
        FindNeedsStart(Table[l].pattern, s);
      }
    }
    SkipFailingRows(Table, s, 0, |Table|);
  }

  /** The converse of KeywordFirstMatch: a keyword token is never followed
      by a word character (the closing `\b`). */
  lemma KeywordMatchHasBoundary(s: string)
    requires FirstMatch(s).Some?
    requires FirstMatch(s).value.kind == NullLiteral || FirstMatch(s).value.kind == BooleanLiteral
    ensures var m := FirstMatch(s).value.text; |m| <= |s| && (|s| == |m| || !IsWordChar(s[|m|]))
  {
    var r := FirstMatch(s).value;
    var j :| 0 <= j < |Table| && Table[j].kind == r.kind && Table[j].Test(s) == Some(r.text)
      && forall l :: 0 <= l < j ==> Table[l].Test(s).None?;
    KeywordRows(j);
    KeywordRowBoundary(j, s);
  }

  /** Only rows 11-13 produce null and boolean tokens. */
  lemma KeywordRows(j: nat)
    requires j < |Table| && (Table[j].kind == NullLiteral || Table[j].kind == BooleanLiteral)
    ensures 11 <= j <= 13
  {
  }

  /** A keyword row matches only its word, and only before a boundary. */
  lemma KeywordRowBoundary(j: nat, s: string)
    requires 11 <= j <= 13 && Table[j].Test(s).Some?
    ensures var m := Table[j].Test(s).value; |m| <= |s| && (|s| == |m| || !IsWordChar(s[|m|]))
  {
    var w := Table[j].pattern.word;
    assert Table[j].pattern == Keyword(w) && |w| > 0 && IsWordChar(w[|w| - 1]);
    assert w <= s && IsBoundary(s, |w|);
    assert s[|w| - 1] == w[|w| - 1];
  }

  /** A source that is just a two-character newline: the scan stops at the
      carriage return and `tokenize` reports it as the rest of the input. */
  lemma CarriageReturnExample(comments: bool)
    ensures Tokenized("\n\r", comments) == Err(UnrecognizedMessage("\r"))
  {
    var src := "\n\r";
    assert src[0..] == src;
    assert FirstMatch(src) == Some(Match(NewLine, "\n\r"));
    var p1 := Position(1, 2, 0);
    assert src[1..] == "\r";
    NothingStartsWithCarriageReturn("\r");
    assert Run(src, comments, p1, []).0 == Err(UnrecognizedMessage("\r"));
  }

  /** The tokens of `[,]`. */
  lemma LeadingCommaLexes(src: string) returns (toks: seq<Token>)
    requires |src| == 3 && src[0] == '[' && src[1] == ',' && src[2] == ']'
    ensures Lexes(src, Position.Start(), toks)
    ensures |toks| == 3 && toks[0].kind == OpenSquareBracket && toks[1].kind == Comma && toks[2].kind == ClosedSquareBracket
  {
    var p0, p1 := Position(0, 1, 0), Position(1, 1, 1);
    var t0 := Token(OpenSquareBracket, [src[0]], Span(p0, p1));
    assert PunctuationKind(src[0]) == Some(OpenSquareBracket);
    var r1 := LeadingCommaRest(src);
    toks := [t0] + r1;
    assert toks[0] == t0 && toks[1..] == r1;
    PunctuationLexes(src, p0, t0, r1);
  }

  /** The tokens of `,]`, after the opening bracket of `[,]`. */
  lemma LeadingCommaRest(src: string) returns (toks: seq<Token>)
    requires |src| == 3 && src[1] == ',' && src[2] == ']'
    ensures Lexes(src, Position(1, 1, 1), toks)
    ensures |toks| == 2 && toks[0].kind == Comma && toks[1].kind == ClosedSquareBracket
  {
    var p1, p2, p3 := Position(1, 1, 1), Position(2, 1, 2), Position(3, 1, 3);
    var t1 := Token(Comma, [src[1]], Span(p1, p2));
    var t2 := Token(ClosedSquareBracket, [src[2]], Span(p2, p3));
    assert Lexes(src, p3, []);
    PunctuationLexes(src, p2, t2, []);
    PunctuationLexes(src, p1, t1, [t2] + []);
    toks := [t1] + ([t2] + []);
  }

  /** The tokens of `{"a":}`. */
  lemma MissingValueLexes(src: string) returns (toks: seq<Token>)
    requires |src| == 6 && src[0] == '{' && src[1] == '"' && src[2] == 'a' && src[3] == '"' && src[4] == ':' && src[5] == '}'
    ensures Lexes(src, Position.Start(), toks)
    ensures |toks| == 4 && toks[0].kind == OpenCurlyBrace && toks[1].kind == StringLiteral && |toks[1].raw| >= 2
    ensures toks[2].kind == Colon && toks[3].kind == ClosedCurlyBrace
  {
    var p0, p1 := Position(0, 1, 0), Position(1, 1, 1);
    var t0 := Token(OpenCurlyBrace, [src[0]], Span(p0, p1));
    assert PunctuationKind(src[0]) == Some(OpenCurlyBrace);
    var r1 := MissingValueRest(src);
    toks := [t0] + r1;
    assert toks[0] == t0 && toks[1..] == r1;
    PunctuationLexes(src, p0, t0, r1);
  }

  /** The tokens of `"a":}`, after the opening brace of `{"a":}`. */
  lemma MissingValueRest(src: string) returns (toks: seq<Token>)
    requires |src| == 6 && src[1] == '"' && src[2] == 'a' && src[3] == '"' && src[4] == ':' && src[5] == '}'
    ensures Lexes(src, Position(1, 1, 1), toks)
    ensures |toks| == 3 && toks[0].kind == StringLiteral && |toks[0].raw| >= 2
    ensures toks[1].kind == Colon && toks[2].kind == ClosedCurlyBrace
  {
    var p1, p4 := Position(1, 1, 1), Position(4, 1, 4);
    var t1 := Token(StringLiteral, src[1..4], Span(p1, p4));
    var r2 := MissingValueTail(src);
    QuotedLexes(src, p1, 3, t1, r2);
    toks := [t1] + r2;
  }

  /** The tokens of `:}` at the end of `{"a":}`. */
  lemma MissingValueTail(src: string) returns (toks: seq<Token>)
    requires |src| == 6 && src[4] == ':' && src[5] == '}'
    ensures Lexes(src, Position(4, 1, 4), toks)
    ensures |toks| == 2 && toks[0].kind == Colon && toks[1].kind == ClosedCurlyBrace
  {
    var p4, p5, p6 := Position(4, 1, 4), Position(5, 1, 5), Position(6, 1, 6);
    var t2 := Token(Colon, [src[4]], Span(p4, p5));
    var t3 := Token(ClosedCurlyBrace, [src[5]], Span(p5, p6));
    assert Lexes(src, p6, []);
    PunctuationLexes(src, p5, t3, []);
    PunctuationLexes(src, p4, t2, [t3] + []);
    toks := [t2] + ([t3] + []);
  }

  // ---------------------------------------------------------------------
  // The step as evidently intended
  // ---------------------------------------------------------------------

  /** Moving past a match as `get_token` evidently means to: past all of its
      characters, a line for each line break, the column restarting after
      the last one. */
  function AdvanceAsIntended(p: Position, m: string): (q: Position)
    ensures q.cursor == p.cursor + |m|
    ensures '\n' !in m ==> q == p.AddColumns(|m|)
    ensures '\n' in m ==> q.line == p.line + CountOf(m, '\n') && q.column == |AfterLastBreak(m)|
  {
    p.AddFromStrResettingColumn(m)
  }

  /** The intended step agrees with `get_token` on every single-line token
      that is not a newline, and on a one-character newline; on a
      two-character newline `get_token` stops one character short. */
  lemma AdvanceAsIntendedAgrees(p: Position, k: TokenKind, m: string)
    requires IsLexeme(k, m)
    ensures k != NewLine && k != BlockComment && '\n' !in m ==> AdvanceAsIntended(p, m) == Advance(p, k, m)
    ensures k == NewLine ==> AdvanceAsIntended(p, m) == Position(p.cursor + |m|, p.line + 1, 0)
    ensures m == "\n" ==> AdvanceAsIntended(p, m) == Advance(p, k, m)
    ensures m == "\n\r" ==> Advance(p, k, m).cursor + 1 == AdvanceAsIntended(p, m).cursor
  {
    if m == "\n" || m == "\n\r" {
      LineBreakLexeme(k, m);
    }
    if k == NewLine {
      CountOfZero(m[1..], '\n');
      assert m[1..] == [] || m[1..] == "\r";
      assert CountOf(m, '\n') == 1 + CountOf(m[1..], '\n');
      LastIndexOfIs(m, '\n', 0);
    }
  }

  /** A line break on its own is only ever a newline token. */
  lemma LineBreakLexeme(k: TokenKind, m: string)
    requires IsLexeme(k, m) && (m == "\n" || m == "\n\r")
    ensures k == NewLine
  {
    assert m[0] == '\n' && !IsBlank(m[0]) && !IsDigit(m[0]) && |m| <= 2;
  }

}
