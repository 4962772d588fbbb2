/** The recursive-descent parser (src/parser.rs): a token list, an index
    into it, and one routine per grammar rule. */
module Parsing {
  import opened Results
  import opened Nodes
  import opened Tokenizing
  import opened TokenizerProperties

  // ---------------------------------------------------------------------
  // Messages
  // ---------------------------------------------------------------------

  function UnexpectedMessage(found: TokenKind, expected: TokenKind): string {
    "unexpected token: found `" + KindName(found) + "`, expected `" + KindName(expected) + "`"
  }

  const RootMessage: string := "unexpected token: must be array literal or object literal"
  const ValuePanic: string := "this should not happens! tf?"
  const PeekPanic: string := "probably index out of range when peeking next token"
  const ConsumePanic: string := "hello"
  const NumberPanic: string := "could not parse number literal raw value"
  const BooleanPanic: string := "could not parse boolean literal raw value"
  /** Rust's own out-of-range slicing panics; their wording is not modelled. */
  const SlicePanic: string := "slice index out of range"

  // ---------------------------------------------------------------------
  // Token access (peek, current, consume; parser.rs:178-213)
  // ---------------------------------------------------------------------

  /** The outcome of a parsing routine and the index it leaves behind. */
  datatype Parsed<+T> = Parsed(result: Result<T>, next: nat)

  /** `peek`: the token at index `i`, or the `expect` panic past the end. */
  function TokenAt(ts: seq<Token>, i: nat): (r: Result<Token>)
    ensures r.Ok? <==> i < |ts|
    ensures r.Ok? ==> r.value == ts[i]
    ensures r.Panic? ==> r.message == PeekPanic
  {
    if i < |ts| then Ok(ts[i]) else Panic(PeekPanic)
  }

  /** `consume(kind)`: the current token when it has the kind, one step on;
      otherwise the "unexpected token" error and the index unchanged. */
  function Consumed(ts: seq<Token>, i: nat, kind: TokenKind): (r: Parsed<Token>)
    ensures r.result.Ok? <==> i < |ts| && ts[i].kind == kind
    ensures r.result.Ok? ==> r.result.value == ts[i] && r.next == i + 1
    ensures !r.result.Ok? ==> r.next == i
    ensures r.result.Err? <==> i < |ts| && ts[i].kind != kind
    ensures r.result.Err? ==> r.result.message == UnexpectedMessage(ts[i].kind, kind)
  {
    if i >= |ts| then Parsed(Panic(ConsumePanic), i)
    else if ts[i].kind != kind then Parsed(Err(UnexpectedMessage(ts[i].kind, kind)), i)
    else Parsed(Ok(ts[i]), i + 1)
  }

  /** `self.source.unwrap()[a..b]`. */
  function SourceSlice(src: string, a: nat, b: nat): (r: Result<string>)
    ensures r.Ok? <==> a <= b <= |src|
    ensures r.Ok? ==> |r.value| == b - a && forall k :: 0 <= k < b - a ==> r.value[k] == src[a + k]
  {
    if a <= b <= |src| then Ok(src[a..b]) else Panic(SlicePanic)
  }

  // ---------------------------------------------------------------------
  // Leaf decoding (parser.rs:131-176)
  // ---------------------------------------------------------------------

  function DigitValue(c: char): nat
    requires IsDigit(c)
  {
    (c as int - '0' as int) as nat
  }

  /** The value of a decimal digit string, most significant digit first. */
  function DigitsValue(m: string): nat
    requires AllDigits(m)
  {
    if |m| == 0 then 0
    else DigitsValue(m[..|m| - 1]) * 10 + DigitValue(m[|m| - 1])
  }

  const MaxInt64: int := 0x7FFF_FFFF_FFFF_FFFF

  /** Decoding a number literal: a literal with a point stays a float (kept
      as its text), an all-digit literal becomes an `i64`, and anything that
      does not fit aborts with the `expect` message. */
  function DecodeNumber(raw: string): (r: Result<NumberValue>)
    ensures !r.Err?
    ensures r.Ok? && r.value.Int? ==> AllDigits(raw) && r.value.value == DigitsValue(raw) <= MaxInt64
    ensures r.Ok? && r.value.Float? ==> r.value.text == raw && '.' in raw
    ensures '.' in raw ==> r.Ok? && r.value.Float?
    ensures '.' !in raw && |raw| > 0 && AllDigits(raw) ==> (r.Panic? <==> DigitsValue(raw) > MaxInt64)
    ensures r.Panic? ==> r.message == NumberPanic
  {
    if '.' in raw then Ok(Float(raw))
    else if |raw| > 0 && AllDigits(raw) && DigitsValue(raw) <= MaxInt64 then Ok(Int(DigitsValue(raw)))
    else Panic(NumberPanic)
  }

  /** `raw.parse::<bool>()`, which knows exactly two texts. */
  function DecodeBoolean(raw: string): (r: Result<bool>)
    ensures !r.Err?
    ensures r.Ok? <==> raw == "true" || raw == "false"
    ensures r.Ok? ==> (r.value <==> raw == "true")
  {
    if raw == "true" then Ok(true)
    else if raw == "false" then Ok(false)
    else Panic(BooleanPanic)
  }

  /** `raw[1..raw.len() - 1]`: the text between the quotes. */
  function StringContent(raw: string): (r: Result<string>)
    ensures !r.Err?
    ensures r.Ok? <==> |raw| >= 2
    ensures r.Ok? ==> raw == [raw[0]] + r.value + [raw[|raw| - 1]]
  {
    if |raw| >= 2 then Ok(raw[1..|raw| - 1]) else Panic(SlicePanic)
  }

  /** `parse_null_literal`: a null token becomes a node with its span and
      text; any other token is the `consume` error. */
  function ParsedNull(ts: seq<Token>, i: nat): (r: Parsed<NullNode>)
    ensures r.result.Ok? <==> i < |ts| && ts[i].kind == NullLiteral
    ensures r.result.Ok? ==> r.result.value == NullNode(ts[i].span, ts[i].raw) && r.next == i + 1
    ensures r.result.Err? <==> i < |ts| && ts[i].kind != NullLiteral
    ensures !r.result.Ok? ==> r.next == i
  {
    var t := Consumed(ts, i, NullLiteral);
    match t.result
    case Ok(token) => Parsed(Ok(NullNode(token.span, token.raw)), t.next)
    case Err(e) => Parsed(Err(e), t.next)
    case Panic(e) => Parsed(Panic(e), t.next)
  }

  /** `parse_boolean_literal`: the value is `true` exactly for the text
      `true`; a boolean token with other text reaches the `expect`. */
  function ParsedBoolean(ts: seq<Token>, i: nat): (r: Parsed<BooleanNode>)
    ensures r.result.Ok? <==> i < |ts| && ts[i].kind == BooleanLiteral && ts[i].raw in {"true", "false"}
    ensures r.result.Ok? ==> r.result.value == BooleanNode(ts[i].span, ts[i].raw == "true", ts[i].raw) && r.next == i + 1
    ensures r.result.Err? <==> i < |ts| && ts[i].kind != BooleanLiteral
    ensures r.result.Panic? && i < |ts| ==> r.result.message == BooleanPanic
  {
    var t := Consumed(ts, i, BooleanLiteral);
    match t.result
    case Ok(token) =>
      (match DecodeBoolean(token.raw)
       case Ok(b) => Parsed(Ok(BooleanNode(token.span, b, token.raw)), t.next)
       case Err(e) => Parsed(Err(e), t.next)
       case Panic(e) => Parsed(Panic(e), t.next))
    case Err(e) => Parsed(Err(e), t.next)
    case Panic(e) => Parsed(Panic(e), t.next)
  }

  /** `parse_number_literal`: the node carries the decoded value and the
      text; the only aborts past the `consume` are the decoding ones. */
  function ParsedNumber(ts: seq<Token>, i: nat): (r: Parsed<NumberNode>)
    ensures r.result.Ok? <==> i < |ts| && ts[i].kind == NumberLiteral && DecodeNumber(ts[i].raw).Ok?
    ensures r.result.Ok? ==>
      r.result.value == NumberNode(ts[i].span, DecodeNumber(ts[i].raw).value, ts[i].raw) && r.next == i + 1
    ensures r.result.Err? <==> i < |ts| && ts[i].kind != NumberLiteral
    ensures r.result.Panic? && i < |ts| ==> r.result.message == NumberPanic
  {
    var t := Consumed(ts, i, NumberLiteral);
    match t.result
    case Ok(token) =>
      (match DecodeNumber(token.raw)
       case Ok(v) => Parsed(Ok(NumberNode(token.span, v, token.raw)), t.next)
       case Err(e) => Parsed(Err(e), t.next)
       case Panic(e) => Parsed(Panic(e), t.next))
    case Err(e) => Parsed(Err(e), t.next)
    case Panic(e) => Parsed(Panic(e), t.next)
  }

  /** `parse_string_literal`: the value is the text between the quotes. */
  function ParsedString(ts: seq<Token>, i: nat): (r: Parsed<StringNode>)
    ensures r.result.Ok? <==> i < |ts| && ts[i].kind == StringLiteral && |ts[i].raw| >= 2
    ensures r.result.Ok? ==>
      r.result.value == StringNode(ts[i].span, ts[i].raw[1..|ts[i].raw| - 1], ts[i].raw) && r.next == i + 1
    ensures r.result.Err? <==> i < |ts| && ts[i].kind != StringLiteral
    ensures r.result.Panic? && i < |ts| ==> r.result.message == SlicePanic
  {
    var t := Consumed(ts, i, StringLiteral);
    match t.result
    case Ok(token) =>
      (match StringContent(token.raw)
       case Ok(v) => Parsed(Ok(StringNode(token.span, v, token.raw)), t.next)
       case Err(e) => Parsed(Err(e), t.next)
       case Panic(e) => Parsed(Panic(e), t.next))
    case Err(e) => Parsed(Err(e), t.next)
    case Panic(e) => Parsed(Panic(e), t.next)
  }

  // ---------------------------------------------------------------------
  // The grammar (parse_value, parse_array_literal, parse_object_literal;
  // parser.rs:64-129). The loops of the two literals are the functions
  // ParsedElements and ParsedMembers.
  // ---------------------------------------------------------------------

  /** One key-value pair in the order an object literal lists them. */
  datatype Entry = Entry(key: string, value: Node)

  /** `HashMap::insert` of every entry in order: a later key overwrites. */
  function ToMap(entries: seq<Entry>): map<string, Node>
  {
    if |entries| == 0 then map[]
    else ToMap(entries[..|entries| - 1])[entries[|entries| - 1].key := entries[|entries| - 1].value]
  }

  function ParsedValue(ts: seq<Token>, src: string, i: nat): (r: Parsed<Node>)
    requires i <= |ts|
    ensures i <= r.next <= |ts|
    ensures r.result.Ok? ==> i < r.next
    decreases |ts| - i, 1
  {
    match TokenAt(ts, i)
    case Ok(t) =>
      (match t.kind
       case NullLiteral =>
         // `consume` of the kind just seen cannot fail
         var p := ParsedNull(ts, i);
         Parsed(Ok(Null(p.result.value)), p.next)
       case BooleanLiteral =>
         var p := ParsedBoolean(ts, i);
         Parsed(if p.result.Ok? then Ok(Boolean(p.result.value)) else p.result.PropagateFailure(), p.next)
       case NumberLiteral =>
         var p := ParsedNumber(ts, i);
         Parsed(if p.result.Ok? then Ok(Number(p.result.value)) else p.result.PropagateFailure(), p.next)
       case StringLiteral =>
         var p := ParsedString(ts, i);
         Parsed(if p.result.Ok? then Ok(String(p.result.value)) else p.result.PropagateFailure(), p.next)
       case OpenSquareBracket =>
         var p := ParsedArray(ts, src, i);
         Parsed(if p.result.Ok? then Ok(Array(p.result.value)) else p.result.PropagateFailure(), p.next)
       case OpenCurlyBrace =>
         var p := ParsedObject(ts, src, i);
         Parsed(if p.result.Ok? then Ok(Object(p.result.value)) else p.result.PropagateFailure(), p.next)
       case _ => Parsed(Panic(ValuePanic), i))
    case Err(e) => Parsed(Err(e), i)
    case Panic(e) => Parsed(Panic(e), i)
  }

  function ParsedArray(ts: seq<Token>, src: string, i: nat): (r: Parsed<ArrayNode>)
    requires i <= |ts|
    ensures i <= r.next <= |ts|
    ensures r.result.Ok? ==> i < r.next
    decreases |ts| - i, 0
  {
    var open := Consumed(ts, i, OpenSquareBracket);
    if !open.result.Ok? then Parsed(open.result.PropagateFailure(), open.next)
    else ArrayAfterElements(ts, src, open.result.value.span.start, ParsedElements(ts, src, open.next, []))
  }

  /** The rest of `parse_array_literal` once the elements are parsed: the
      closing `]`, then the node from the opening token's start to its end. */
  function ArrayAfterElements(ts: seq<Token>, src: string, start: Position, elements: Parsed<seq<Node>>): (r: Parsed<ArrayNode>)
    requires elements.next <= |ts|
    ensures elements.next <= r.next <= |ts|
    ensures r.result.Ok? ==> r.next == elements.next + 1
  {
    if !elements.result.Ok? then Parsed(elements.result.PropagateFailure(), elements.next)
    else
      var close := Consumed(ts, elements.next, ClosedSquareBracket);
      if !close.result.Ok? then Parsed(close.result.PropagateFailure(), close.next)
      else
        var end := close.result.value.span.end;
        match SourceSlice(src, start.cursor, end.cursor)
        case Ok(raw) => Parsed(Ok(ArrayNode(Span.New(start, end), elements.result.value, raw)), close.next)
        case Err(e) => Parsed(Err(e), close.next)
        case Panic(e) => Parsed(Panic(e), close.next)
  }

  /** The loop of `parse_array_literal` from index `j`, with `acc` pushed:
      it stops in front of `]` or `Eoi`, and otherwise parses a value. */
  function ParsedElements(ts: seq<Token>, src: string, j: nat, acc: seq<Node>): (r: Parsed<seq<Node>>)
    requires j <= |ts|
    ensures j <= r.next <= |ts|
    decreases |ts| - j, 3
  {
    match TokenAt(ts, j)
    case Ok(t) =>
      if t.kind == ClosedSquareBracket || t.kind == Eoi then Parsed(Ok(acc), j)
      else
        var value := ParsedValue(ts, src, j);
        if !value.result.Ok? then Parsed(value.result.PropagateFailure(), value.next)
        else AfterElement(ts, src, value.next, acc + [value.result.value])
    case Err(e) => Parsed(Err(e), j)
    case Panic(e) => Parsed(Panic(e), j)
  }

  /** The rest of an iteration after a value: a comma is required unless
      `]` follows. */
  function AfterElement(ts: seq<Token>, src: string, k: nat, acc: seq<Node>): (r: Parsed<seq<Node>>)
    requires k <= |ts|
    ensures k <= r.next <= |ts|
    decreases |ts| - k, 4
  {
    match TokenAt(ts, k)
    case Ok(u) =>
      if u.kind != ClosedSquareBracket then
        var comma := Consumed(ts, k, Comma);
        if !comma.result.Ok? then Parsed(comma.result.PropagateFailure(), comma.next)
        else ParsedElements(ts, src, comma.next, acc)
      else ParsedElements(ts, src, k, acc)
    case Err(e) => Parsed(Err(e), k)
    case Panic(e) => Parsed(Panic(e), k)
  }

  function ParsedObject(ts: seq<Token>, src: string, i: nat): (r: Parsed<ObjectNode>)
    requires i <= |ts|
    ensures i <= r.next <= |ts|
    ensures r.result.Ok? ==> i < r.next
    decreases |ts| - i, 0
  {
    var open := Consumed(ts, i, OpenCurlyBrace);
    if !open.result.Ok? then Parsed(open.result.PropagateFailure(), open.next)
    else ObjectAfterMembers(ts, src, open.result.value.span.start, ParsedMembers(ts, src, open.next, []))
  }

  /** The rest of `parse_object_literal` once the members are parsed: the
      closing `}`, then the node, whose map keeps the last value of each key. */
  function ObjectAfterMembers(ts: seq<Token>, src: string, start: Position, members: Parsed<seq<Entry>>): (r: Parsed<ObjectNode>)
    requires members.next <= |ts|
    ensures members.next <= r.next <= |ts|
    ensures r.result.Ok? ==> r.next == members.next + 1
  {
    if !members.result.Ok? then Parsed(members.result.PropagateFailure(), members.next)
    else
      var close := Consumed(ts, members.next, ClosedCurlyBrace);
      if !close.result.Ok? then Parsed(close.result.PropagateFailure(), close.next)
      else
        var end := close.result.value.span.end;
        match SourceSlice(src, start.cursor, end.cursor)
        case Ok(raw) => Parsed(Ok(ObjectNode(Span.New(start, end), ToMap(members.result.value), raw)), close.next)
        case Err(e) => Parsed(Err(e), close.next)
        case Panic(e) => Parsed(Panic(e), close.next)
  }

  /** The loop of `parse_object_literal` from index `j`, with the entries
      `acc` inserted so far, in order: it stops in front of `}` or `Eoi`,
      and otherwise parses a member. */
  function ParsedMembers(ts: seq<Token>, src: string, j: nat, acc: seq<Entry>): (r: Parsed<seq<Entry>>)
    requires j <= |ts|
    ensures j <= r.next <= |ts|
    decreases |ts| - j, 3
  {
    match TokenAt(ts, j)
    case Ok(t) =>
      if t.kind == ClosedCurlyBrace || t.kind == Eoi then Parsed(Ok(acc), j)
      else ParsedMember(ts, src, j, acc)
    case Err(e) => Parsed(Err(e), j)
    case Panic(e) => Parsed(Panic(e), j)
  }

  /** One member: a string key, a colon, a value. */
  function ParsedMember(ts: seq<Token>, src: string, j: nat, acc: seq<Entry>): (r: Parsed<seq<Entry>>)
    requires j <= |ts|
    ensures j <= r.next <= |ts|
    decreases |ts| - j, 2
  {
    var key := ParsedString(ts, j);
    if !key.result.Ok? then Parsed(key.result.PropagateFailure(), key.next)
    else
      var colon := Consumed(ts, key.next, Colon);
      if !colon.result.Ok? then Parsed(colon.result.PropagateFailure(), colon.next)
      else MemberValue(ts, src, colon.next, key.result.value.value, acc)
  }

  /** A member from its value on, at index `c`, under the key `key`. */
  function MemberValue(ts: seq<Token>, src: string, c: nat, key: string, acc: seq<Entry>): (r: Parsed<seq<Entry>>)
    requires c <= |ts|
    ensures c <= r.next <= |ts|
    decreases |ts| - c, 2
  {
    var value := ParsedValue(ts, src, c);
    if !value.result.Ok? then Parsed(value.result.PropagateFailure(), value.next)
    else AfterMember(ts, src, value.next, acc + [Entry(key, value.result.value)])
  }

  /** The rest of an iteration after a member: a comma is required unless
      `}` follows. */
  function AfterMember(ts: seq<Token>, src: string, k: nat, acc: seq<Entry>): (r: Parsed<seq<Entry>>)
    requires k <= |ts|
    ensures k <= r.next <= |ts|
    decreases |ts| - k, 4
  {
    match TokenAt(ts, k)
    case Ok(u) =>
      if u.kind != ClosedCurlyBrace then
        var comma := Consumed(ts, k, Comma);
        if !comma.result.Ok? then Parsed(comma.result.PropagateFailure(), comma.next)
        else ParsedMembers(ts, src, comma.next, acc)
      else ParsedMembers(ts, src, k, acc)
    case Err(e) => Parsed(Err(e), k)
    case Panic(e) => Parsed(Panic(e), k)
  }

  // ---------------------------------------------------------------------
  // The entry point (parse, parser.rs:47-62)
  // ---------------------------------------------------------------------

  /** `parse` once the tokens are in: the root must open an array or an
      object. */
  function ParsedRoot(ts: seq<Token>, src: string): (r: Parsed<Node>)
    ensures r.result.Ok? ==> r.result.value.Array? || r.result.value.Object?
    ensures |ts| == 0 ==> r.result == Panic(PeekPanic)
    ensures |ts| > 0 && ts[0].kind != OpenSquareBracket && ts[0].kind != OpenCurlyBrace ==> r.result == Err(RootMessage)
    ensures |ts| > 0 && ts[0].kind == OpenSquareBracket ==>
      r.next == ParsedArray(ts, src, 0).next && (r.result.Ok? <==> ParsedArray(ts, src, 0).result.Ok?)
    ensures |ts| > 0 && ts[0].kind == OpenCurlyBrace ==>
      r.next == ParsedObject(ts, src, 0).next && (r.result.Ok? <==> ParsedObject(ts, src, 0).result.Ok?)
  {
    var current := TokenAt(ts, 0);
    if !current.Ok? then Parsed(current.PropagateFailure(), 0)
    else if current.value.kind == OpenSquareBracket then
      var p := ParsedArray(ts, src, 0);
      Parsed(if p.result.Ok? then Ok(Array(p.result.value)) else p.result.PropagateFailure(), p.next)
    else if current.value.kind == OpenCurlyBrace then
      var p := ParsedObject(ts, src, 0);
      Parsed(if p.result.Ok? then Ok(Object(p.result.value)) else p.result.PropagateFailure(), p.next)
    else Parsed(Err(RootMessage), 0)
  }

  /** What `parse(source)` returns on a parser whose tokenizer has the
      comment flag `comments`. */
  function ParseSource(src: string, comments: bool): (r: Result<Node>)
    ensures r.Ok? ==> r.value.Array? || r.value.Object?
    ensures Tokenized(src, comments).Err? ==> r == Err(Tokenized(src, comments).message)
    ensures Tokenized(src, comments).Panic? ==> r == Panic(Tokenized(src, comments).message)
  {
    match Tokenized(src, comments)
    case Ok(ts) => ParsedRoot(ts, src).result
    case Err(e) => Err(e)
    case Panic(e) => Panic(e)
  }

  // ---------------------------------------------------------------------
  // Well-formed trees
  // ---------------------------------------------------------------------

  ghost predicate Enclosed(inner: Span, outer: Span) {
    outer.start.cursor <= inner.start.cursor && inner.end.cursor <= outer.end.cursor
  }

  /** Each node ends before any later one starts. */
  ghost predicate NodesInOrder(ns: seq<Node>) {
    forall k, l :: 0 <= k < l < |ns| ==> ns[k].SpanOf().end.cursor <= ns[l].SpanOf().start.cursor
  }

  /** A node as the parser builds it from `src`: its raw text is the source
      it spans, a leaf's value is decoded from its text, and the children of
      a composite lie inside it, an array's in order. */
  ghost predicate WellFormedNode(n: Node, src: string)
    decreases n
  {
    var sp := n.SpanOf();
    && sp.start.cursor <= sp.end.cursor <= |src|
    && n.RawOf() == src[sp.start.cursor..sp.end.cursor]
    && match n
       case Null(x) => x.raw == "null"
       case Boolean(b) => (b.raw == "true" || b.raw == "false") && (b.value <==> b.raw == "true")
       case Number(x) =>
         && IsNumberText(x.raw)
         && (x.value.Float? <==> '.' in x.raw)
         && (x.value.Float? ==> x.value.text == x.raw)
         && (x.value.Int? ==> AllDigits(x.raw) && x.value.value == DigitsValue(x.raw))
       case String(x) =>
         && |x.raw| >= 2 && (x.raw[0] == '"' || x.raw[0] == '\'')
         && x.raw == [x.raw[0]] + x.value + [x.raw[0]]
         && x.raw[0] !in x.value
       case Array(a) =>
         && (forall k :: 0 <= k < |a.value| ==> WellFormedNode(a.value[k], src) && Enclosed(a.value[k].SpanOf(), sp))
         && NodesInOrder(a.value)
       case Object(o) =>
         forall key :: key in o.value ==> WellFormedNode(o.value[key], src) && Enclosed(o.value[key].SpanOf(), sp)
  }

  /** The only aborts left once the tokens are well formed: a value position
      holding a punctuation token, and an integer too large for `i64`. */
  ghost predicate OnlyGrammarPanics<T>(r: Result<T>) {
    r.Panic? ==> r.message == ValuePanic || r.message == NumberPanic
  }

  /** A node built from the tokens `i` up to `next`. */
  ghost predicate Spans(n: Node, ts: seq<Token>, i: nat, next: nat)
    requires i < next <= |ts|
  {
    n.SpanOf().start == ts[i].span.start && n.SpanOf().end == ts[next - 1].span.end
  }

  lemma TokenOrder(ts: seq<Token>, src: string, a: nat, b: nat)
    requires WellFormedTokens(ts, src) && a <= b < |ts|
    ensures ts[a].span.start.cursor <= ts[a].span.end.cursor
    ensures ts[a].span.start.cursor <= ts[b].span.start.cursor
    ensures a < b ==> ts[a].span.end.cursor <= ts[b].span.start.cursor
  {
    assert WellFormedToken(ts[a], src);
  }

  /** A consumed token is never the final `Eoi`. */
  lemma ConsumeStaysInside(ts: seq<Token>, i: nat, kind: TokenKind)
    requires |ts| > 0 && ts[|ts| - 1].kind == Eoi && kind != Eoi && i < |ts|
    ensures Consumed(ts, i, kind).next < |ts|
    ensures !Consumed(ts, i, kind).result.Panic?
  {
  }

  lemma NullFacts(ts: seq<Token>, src: string, i: nat)
    requires WellFormedTokens(ts, src) && i < |ts|
    ensures var r := ParsedNull(ts, i);
            && r.next < |ts| && !r.result.Panic?
            && (r.result.Ok? ==> i < r.next && WellFormedNode(Null(r.result.value), src)
                                 && Spans(Null(r.result.value), ts, i, r.next))
  {
    assert WellFormedToken(ts[i], src);
  }

  lemma BooleanFacts(ts: seq<Token>, src: string, i: nat)
    requires WellFormedTokens(ts, src) && i < |ts|
    ensures var r := ParsedBoolean(ts, i);
            && r.next < |ts| && !r.result.Panic?
            && (r.result.Ok? ==> i < r.next && WellFormedNode(Boolean(r.result.value), src)
                                 && Spans(Boolean(r.result.value), ts, i, r.next))
  {
    assert WellFormedToken(ts[i], src);
  }

  lemma NumberFacts(ts: seq<Token>, src: string, i: nat)
    requires WellFormedTokens(ts, src) && i < |ts|
    ensures var r := ParsedNumber(ts, i);
            && r.next < |ts| && (r.result.Panic? ==> r.result.message == NumberPanic)
            && (r.result.Ok? ==> i < r.next && WellFormedNode(Number(r.result.value), src)
                                 && Spans(Number(r.result.value), ts, i, r.next))
    ensures ts[i].kind == NumberLiteral ==>
              (ParsedNumber(ts, i).result.Panic? <==>
                 '.' !in ts[i].raw && AllDigits(ts[i].raw) && DigitsValue(ts[i].raw) > MaxInt64)
  {
    assert WellFormedToken(ts[i], src);
    if ts[i].kind == NumberLiteral && '.' !in ts[i].raw {
      NumberTextWithoutPoint(ts[i].raw);
    }
  }

  /** A number literal without a point is a non-empty run of digits. */
  lemma NumberTextWithoutPoint(m: string)
    requires IsNumberText(m) && '.' !in m
    ensures |m| > 0 && AllDigits(m)
  {
  }

  lemma StringFacts(ts: seq<Token>, src: string, i: nat)
    requires WellFormedTokens(ts, src) && i < |ts|
    ensures var r := ParsedString(ts, i);
            && r.next < |ts| && !r.result.Panic?
            && (r.result.Ok? ==> i < r.next && WellFormedNode(String(r.result.value), src)
                                 && Spans(String(r.result.value), ts, i, r.next))
  {
    assert WellFormedToken(ts[i], src);
    if ts[i].kind == StringLiteral {
      var m := ts[i].raw;
      var v := m[1..|m| - 1];
      assert m == [m[0]] + v + [m[|m| - 1]];
      forall k | 0 <= k < |v| ensures v[k] != m[0] {
        assert v[k] == m[k + 1];
      }
    }
  }

  // ---------------------------------------------------------------------
  // Objects: insertion order decides duplicates
  // ---------------------------------------------------------------------

  /** The keys of the map are exactly the keys parsed. */
  lemma {:induction false} ToMapKeys(entries: seq<Entry>)
    ensures ToMap(entries).Keys == set e | e in entries :: e.key
    decreases |entries|
  {
    if |entries| > 0 {
      var init := entries[..|entries| - 1];
      ToMapKeys(init);
      assert entries == init + [entries[|entries| - 1]];
    }
  }

  /** A key maps to the value of its last entry. */
  lemma {:induction false} ToMapLastWins(entries: seq<Entry>, i: nat)
    requires i < |entries|
    requires forall l :: i < l < |entries| ==> entries[l].key != entries[i].key
    ensures entries[i].key in ToMap(entries) && ToMap(entries)[entries[i].key] == entries[i].value
    decreases |entries|
  {
    if i < |entries| - 1 {
      ToMapLastWins(entries[..|entries| - 1], i);
    }
  }

  /** Every value in the map comes from some entry. */
  lemma {:induction false} ToMapValues(entries: seq<Entry>, key: string)
    requires key in ToMap(entries)
    ensures exists i :: 0 <= i < |entries| && entries[i].key == key && entries[i].value == ToMap(entries)[key]
    decreases |entries|
  {
    var last := |entries| - 1;
    if entries[last].key != key {
      ToMapValues(entries[..last], key);
      var i :| 0 <= i < last && entries[..last][i].key == key && entries[..last][i].value == ToMap(entries[..last])[key];
      assert entries[i] == entries[..last][i];
    }
  }

  // ---------------------------------------------------------------------
  // What the grammar routines build from well-formed tokens
  // ---------------------------------------------------------------------

  /** Nodes already collected that lie between cursor `lo` and cursor `hi`. */
  ghost predicate Collected(ns: seq<Node>, src: string, lo: nat, hi: nat) {
    && NodesInOrder(ns)
    && forall k :: 0 <= k < |ns| ==>
         WellFormedNode(ns[k], src) && lo <= ns[k].SpanOf().start.cursor && ns[k].SpanOf().end.cursor <= hi
  }

  ghost predicate CollectedEntries(es: seq<Entry>, src: string, lo: nat, hi: nat) {
    forall k :: 0 <= k < |es| ==>
      WellFormedNode(es[k].value, src) && lo <= es[k].value.SpanOf().start.cursor && es[k].value.SpanOf().end.cursor <= hi
  }

  lemma CollectedAppend(ns: seq<Node>, n: Node, src: string, lo: nat, mid: nat, hi: nat)
    requires Collected(ns, src, lo, mid)
    requires WellFormedNode(n, src) && mid <= n.SpanOf().start.cursor && lo <= mid
    requires n.SpanOf().end.cursor <= hi
    ensures Collected(ns + [n], src, lo, hi)
  {
    var r := ns + [n];
    forall k | 0 <= k < |r|
      ensures WellFormedNode(r[k], src) && lo <= r[k].SpanOf().start.cursor && r[k].SpanOf().end.cursor <= hi
    {
      if k < |ns| {
        assert r[k] == ns[k];
        assert WellFormedNode(n, src);
      }
    }
    forall k, l | 0 <= k < l < |r|
      ensures r[k].SpanOf().end.cursor <= r[l].SpanOf().start.cursor
    {
      assert r[k] == ns[k];
      if l < |ns| { assert r[l] == ns[l]; }
    }
  }

  lemma CollectedEntriesAppend(es: seq<Entry>, e: Entry, src: string, lo: nat, mid: nat, hi: nat)
    requires CollectedEntries(es, src, lo, mid)
    requires WellFormedNode(e.value, src) && lo <= e.value.SpanOf().start.cursor && mid <= hi
    requires e.value.SpanOf().end.cursor <= hi
    ensures CollectedEntries(es + [e], src, lo, hi)
  {
    var r := es + [e];
    forall k | 0 <= k < |r|
      ensures WellFormedNode(r[k].value, src) && lo <= r[k].value.SpanOf().start.cursor && r[k].value.SpanOf().end.cursor <= hi
    {
      if k < |es| { assert r[k] == es[k]; }
    }
  }

  /** The values of an object's map are among its entries' values. */
  lemma MapOfCollected(es: seq<Entry>, src: string, lo: nat, hi: nat)
    requires CollectedEntries(es, src, lo, hi)
    ensures forall key :: key in ToMap(es) ==>
              WellFormedNode(ToMap(es)[key], src)
              && lo <= ToMap(es)[key].SpanOf().start.cursor && ToMap(es)[key].SpanOf().end.cursor <= hi
  {
    forall key | key in ToMap(es)
      ensures WellFormedNode(ToMap(es)[key], src)
              && lo <= ToMap(es)[key].SpanOf().start.cursor && ToMap(es)[key].SpanOf().end.cursor <= hi
    {
      ToMapValues(es, key);
    }
  }

  lemma ObjectWellFormed(o: ObjectNode, es: seq<Entry>, src: string, lo: nat, hi: nat)
    requires o.value == ToMap(es) && CollectedEntries(es, src, lo, hi)
    requires o.span.start.cursor <= lo <= hi <= o.span.end.cursor <= |src|
    requires o.raw == src[o.span.start.cursor..o.span.end.cursor]
    ensures WellFormedNode(Object(o), src)
  {
    MapOfCollected(es, src, lo, hi);
  }

  /** What a value routine yields from well-formed tokens: it stops inside
      the list, aborts only as the grammar does, and on success has
      consumed at least one token and built a well-formed node spanning
      the tokens it consumed. */
  ghost predicate ValueOutcome(r: Parsed<Node>, ts: seq<Token>, src: string, i: nat) {
    && r.next < |ts| && OnlyGrammarPanics(r.result)
    && (r.result.Ok? ==> i < r.next && WellFormedNode(r.result.value, src)
                         && Spans(r.result.value, ts, i, r.next))
  }

  ghost predicate ArrayOutcome(r: Parsed<ArrayNode>, ts: seq<Token>, src: string, i: nat) {
    && r.next < |ts| && OnlyGrammarPanics(r.result)
    && (r.result.Ok? ==> i < r.next && WellFormedNode(Array(r.result.value), src)
                         && Spans(Array(r.result.value), ts, i, r.next))
  }

  ghost predicate ObjectOutcome(r: Parsed<ObjectNode>, ts: seq<Token>, src: string, i: nat) {
    && r.next < |ts| && OnlyGrammarPanics(r.result)
    && (r.result.Ok? ==> i < r.next && WellFormedNode(Object(r.result.value), src)
                         && Spans(Object(r.result.value), ts, i, r.next))
  }

  /** What a run of array elements yields: on success it stops in front of
      `]` or `Eoi` with well-formed elements lying after cursor `lo`. */
  ghost predicate ElementsOutcome(r: Parsed<seq<Node>>, ts: seq<Token>, src: string, lo: nat) {
    && r.next < |ts| && OnlyGrammarPanics(r.result)
    && (r.result.Ok? ==>
          && (ts[r.next].kind == ClosedSquareBracket || ts[r.next].kind == Eoi)
          && lo <= ts[r.next].span.start.cursor
          && Collected(r.result.value, src, lo, ts[r.next].span.start.cursor))
  }

  lemma {:induction false} ValueFacts(ts: seq<Token>, src: string, i: nat)
    requires WellFormedTokens(ts, src) && i < |ts|
    ensures ValueOutcome(ParsedValue(ts, src, i), ts, src, i)
    decreases |ts| - i, 2
  {
    var k := ts[i].kind;
    if k == NullLiteral || k == BooleanLiteral || k == NumberLiteral || k == StringLiteral {
      LeafValueFacts(ts, src, i);
    } else if k == OpenSquareBracket {
      ArrayValueFacts(ts, src, i);
    } else if k == OpenCurlyBrace {
      ObjectValueFacts(ts, src, i);
    }
  }

  lemma LeafValueFacts(ts: seq<Token>, src: string, i: nat)
    requires WellFormedTokens(ts, src) && i < |ts|
    requires ts[i].kind in {NullLiteral, BooleanLiteral, NumberLiteral, StringLiteral}
    ensures ValueOutcome(ParsedValue(ts, src, i), ts, src, i)
  {
    var k := ts[i].kind;
    if k == NullLiteral {
      NullValueFacts(ts, src, i);
    } else if k == BooleanLiteral {
      BooleanValueFacts(ts, src, i);
    } else if k == NumberLiteral {
      NumberValueFacts(ts, src, i);
    } else {
      StringValueFacts(ts, src, i);
    }
  }

  lemma NullValueFacts(ts: seq<Token>, src: string, i: nat)
    requires WellFormedTokens(ts, src) && i < |ts| && ts[i].kind == NullLiteral
    ensures ValueOutcome(ParsedValue(ts, src, i), ts, src, i)
  {
    NullFacts(ts, src, i);
    var p := ParsedNull(ts, i);
    assert p.result.Ok?;
    assert ParsedValue(ts, src, i) == Parsed(Ok(Null(p.result.value)), p.next);
  }

  lemma BooleanValueFacts(ts: seq<Token>, src: string, i: nat)
    requires WellFormedTokens(ts, src) && i < |ts| && ts[i].kind == BooleanLiteral
    ensures ValueOutcome(ParsedValue(ts, src, i), ts, src, i)
  {
    BooleanFacts(ts, src, i);
    var p := ParsedBoolean(ts, i);
    assert p.result.Ok?;
    assert ParsedValue(ts, src, i) == Parsed(Ok(Boolean(p.result.value)), p.next);
  }

  lemma NumberValueFacts(ts: seq<Token>, src: string, i: nat)
    requires WellFormedTokens(ts, src) && i < |ts| && ts[i].kind == NumberLiteral
    ensures ValueOutcome(ParsedValue(ts, src, i), ts, src, i)
  {
    NumberFacts(ts, src, i);
    var p := ParsedNumber(ts, i);
    assert ParsedValue(ts, src, i)
        == Parsed(if p.result.Ok? then Ok(Number(p.result.value)) else p.result.PropagateFailure(), p.next);
  }

  lemma StringValueFacts(ts: seq<Token>, src: string, i: nat)
    requires WellFormedTokens(ts, src) && i < |ts| && ts[i].kind == StringLiteral
    ensures ValueOutcome(ParsedValue(ts, src, i), ts, src, i)
  {
    StringFacts(ts, src, i);
    var p := ParsedString(ts, i);
    assert p.result.Ok?;
    assert ParsedValue(ts, src, i) == Parsed(Ok(String(p.result.value)), p.next);
  }

  lemma {:induction false} ArrayValueFacts(ts: seq<Token>, src: string, i: nat)
    requires WellFormedTokens(ts, src) && i < |ts| && ts[i].kind == OpenSquareBracket
    ensures ValueOutcome(ParsedValue(ts, src, i), ts, src, i)
    decreases |ts| - i, 1
  {
    ArrayFacts(ts, src, i);
    var p := ParsedArray(ts, src, i);
    assert ParsedValue(ts, src, i)
        == Parsed(if p.result.Ok? then Ok(Array(p.result.value)) else p.result.PropagateFailure(), p.next);
  }

  lemma {:induction false} ObjectValueFacts(ts: seq<Token>, src: string, i: nat)
    requires WellFormedTokens(ts, src) && i < |ts| && ts[i].kind == OpenCurlyBrace
    ensures ValueOutcome(ParsedValue(ts, src, i), ts, src, i)
    decreases |ts| - i, 1
  {
    ObjectFacts(ts, src, i);
    var p := ParsedObject(ts, src, i);
    assert ParsedValue(ts, src, i)
        == Parsed(if p.result.Ok? then Ok(Object(p.result.value)) else p.result.PropagateFailure(), p.next);
  }

  lemma {:induction false} ArrayFacts(ts: seq<Token>, src: string, i: nat)
    requires WellFormedTokens(ts, src) && i < |ts|
    ensures ArrayOutcome(ParsedArray(ts, src, i), ts, src, i)
    decreases |ts| - i, 0
  {
    ConsumeStaysInside(ts, i, OpenSquareBracket);
    if ts[i].kind == OpenSquareBracket {
      var lo := ts[i].span.end.cursor;
      TokenOrder(ts, src, i, i + 1);
      ElementsFacts(ts, src, i + 1, [], lo);
      var e := ParsedElements(ts, src, i + 1, []);
      if e.result.Ok? {
        var c := e.next;
        ConsumeStaysInside(ts, c, ClosedSquareBracket);
        if ts[c].kind == ClosedSquareBracket {
          ArrayClosed(ts, src, i, c, e.result.value);
        }
      }
    }
  }

  /** An array whose elements were collected up to a `]` at `c`. */
  lemma ArrayClosed(ts: seq<Token>, src: string, i: nat, c: nat, elements: seq<Node>)
    requires WellFormedTokens(ts, src) && i < c < |ts|
    requires ts[i].kind == OpenSquareBracket && ts[c].kind == ClosedSquareBracket
    requires ParsedElements(ts, src, i + 1, []) == Parsed(Ok(elements), c)
    requires Collected(elements, src, ts[i].span.end.cursor, ts[c].span.start.cursor)
    ensures ArrayOutcome(ParsedArray(ts, src, i), ts, src, i)
  {
    var a := ClosedArrayNode(ts, src, i, c, elements);
    assert ParsedArray(ts, src, i) == ArrayAfterElements(ts, src, ts[i].span.start, Parsed(Ok(elements), c));
    assert ArrayAfterElements(ts, src, ts[i].span.start, Parsed(Ok(elements), c)) == Parsed(Ok(a), c + 1);
  }

  /** The node an array closed at `c` builds. */
  lemma ClosedArrayNode(ts: seq<Token>, src: string, i: nat, c: nat, elements: seq<Node>) returns (a: ArrayNode)
    requires WellFormedTokens(ts, src) && i < c < |ts|
    requires Collected(elements, src, ts[i].span.end.cursor, ts[c].span.start.cursor)
    ensures ts[i].span.start.cursor <= ts[c].span.end.cursor <= |src|
    ensures a == ArrayNode(Span(ts[i].span.start, ts[c].span.end), elements,
                           src[ts[i].span.start.cursor..ts[c].span.end.cursor])
    ensures WellFormedNode(Array(a), src) && Spans(Array(a), ts, i, c + 1)
  {
    TokenOrder(ts, src, i, c);
    TokenOrder(ts, src, c, c);
    assert WellFormedToken(ts[c], src);
    var start, end := ts[i].span.start, ts[c].span.end;
    a := ArrayNode(Span(start, end), elements, src[start.cursor..end.cursor]);
  }

  lemma {:induction false} ElementsFacts(ts: seq<Token>, src: string, j: nat, acc: seq<Node>, lo: nat)
    requires WellFormedTokens(ts, src) && j < |ts|
    requires lo <= ts[j].span.start.cursor
    requires Collected(acc, src, lo, ts[j].span.start.cursor)
    ensures ElementsOutcome(ParsedElements(ts, src, j, acc), ts, src, lo)
    decreases |ts| - j, 3
  {
    var t := ts[j];
    if t.kind != ClosedSquareBracket && t.kind != Eoi {
      ValueFacts(ts, src, j);
      var v := ParsedValue(ts, src, j);
      if v.result.Ok? {
        var k := v.next;
        TokenOrder(ts, src, j, k);
        TokenOrder(ts, src, k - 1, k);
        CollectedAppend(acc, v.result.value, src, lo, ts[j].span.start.cursor, ts[k].span.start.cursor);
        AfterElementFacts(ts, src, k, acc + [v.result.value], lo);
      }
    }
  }

  lemma {:induction false} AfterElementFacts(ts: seq<Token>, src: string, k: nat, acc: seq<Node>, lo: nat)
    requires WellFormedTokens(ts, src) && k < |ts|
    requires lo <= ts[k].span.start.cursor
    requires Collected(acc, src, lo, ts[k].span.start.cursor)
    ensures ElementsOutcome(AfterElement(ts, src, k, acc), ts, src, lo)
    decreases |ts| - k, 4
  {
    if ts[k].kind != ClosedSquareBracket {
      ConsumeStaysInside(ts, k, Comma);
      if ts[k].kind == Comma {
        TokenOrder(ts, src, k, k + 1);
        assert Collected(acc, src, lo, ts[k + 1].span.start.cursor);
        ElementsFacts(ts, src, k + 1, acc, lo);
      }
    } else {
      ElementsFacts(ts, src, k, acc, lo);
    }
  }

  lemma {:induction false} ObjectFacts(ts: seq<Token>, src: string, i: nat)
    requires WellFormedTokens(ts, src) && i < |ts|
    ensures ObjectOutcome(ParsedObject(ts, src, i), ts, src, i)
    decreases |ts| - i, 0
  {
    ConsumeStaysInside(ts, i, OpenCurlyBrace);
    if ts[i].kind == OpenCurlyBrace {
      var lo := ts[i].span.end.cursor;
      TokenOrder(ts, src, i, i + 1);
      MembersFacts(ts, src, i + 1, [], lo);
      var e := ParsedMembers(ts, src, i + 1, []);
      if e.result.Ok? {
        var c := e.next;
        ConsumeStaysInside(ts, c, ClosedCurlyBrace);
        if ts[c].kind == ClosedCurlyBrace {
          ObjectClosed(ts, src, i, c, e.result.value);
        }
      }
    }
  }

  /** An object whose entries were collected up to a `}` at `c`. */
  lemma ObjectClosed(ts: seq<Token>, src: string, i: nat, c: nat, entries: seq<Entry>)
    requires WellFormedTokens(ts, src) && i < c < |ts|
    requires ts[i].kind == OpenCurlyBrace && ts[c].kind == ClosedCurlyBrace
    requires ParsedMembers(ts, src, i + 1, []) == Parsed(Ok(entries), c)
    requires CollectedEntries(entries, src, ts[i].span.end.cursor, ts[c].span.start.cursor)
    ensures ObjectOutcome(ParsedObject(ts, src, i), ts, src, i)
  {
    var o := ClosedObjectNode(ts, src, i, c, entries);
    assert ParsedObject(ts, src, i) == ObjectAfterMembers(ts, src, ts[i].span.start, Parsed(Ok(entries), c));
    assert ObjectAfterMembers(ts, src, ts[i].span.start, Parsed(Ok(entries), c)) == Parsed(Ok(o), c + 1);
  }

  /** The node an object closed at `c` builds. */
  lemma ClosedObjectNode(ts: seq<Token>, src: string, i: nat, c: nat, entries: seq<Entry>) returns (o: ObjectNode)
    requires WellFormedTokens(ts, src) && i < c < |ts|
    requires CollectedEntries(entries, src, ts[i].span.end.cursor, ts[c].span.start.cursor)
    ensures ts[i].span.start.cursor <= ts[c].span.end.cursor <= |src|
    ensures o == ObjectNode(Span(ts[i].span.start, ts[c].span.end), ToMap(entries),
                            src[ts[i].span.start.cursor..ts[c].span.end.cursor])
    ensures WellFormedNode(Object(o), src) && Spans(Object(o), ts, i, c + 1)
  {
    TokenOrder(ts, src, i, c);
    TokenOrder(ts, src, c, c);
    assert WellFormedToken(ts[c], src);
    var start, end := ts[i].span.start, ts[c].span.end;
    o := ObjectNode(Span(start, end), ToMap(entries), src[start.cursor..end.cursor]);
    ObjectWellFormed(o, entries, src, ts[i].span.end.cursor, ts[c].span.start.cursor);
  }

  /** What a run of object members yields from well-formed tokens: no
      abort but the grammar's own, and on success it stops in front of `}`
      or `Eoi` with well-formed entries lying after cursor `lo`. */
  ghost predicate EntriesOutcome(r: Parsed<seq<Entry>>, ts: seq<Token>, src: string, lo: nat) {
    && r.next < |ts| && OnlyGrammarPanics(r.result)
    && (r.result.Ok? ==>
          && (ts[r.next].kind == ClosedCurlyBrace || ts[r.next].kind == Eoi)
          && lo <= ts[r.next].span.start.cursor
          && CollectedEntries(r.result.value, src, lo, ts[r.next].span.start.cursor))
  }

  lemma {:induction false} MembersFacts(ts: seq<Token>, src: string, j: nat, acc: seq<Entry>, lo: nat)
    requires WellFormedTokens(ts, src) && j < |ts|
    requires lo <= ts[j].span.start.cursor
    requires CollectedEntries(acc, src, lo, ts[j].span.start.cursor)
    ensures EntriesOutcome(ParsedMembers(ts, src, j, acc), ts, src, lo)
    decreases |ts| - j, 3
  {
    var t := ts[j];
    if t.kind != ClosedCurlyBrace && t.kind != Eoi {
      MemberFacts(ts, src, j, acc, lo);
    }
  }

  lemma {:induction false} MemberFacts(ts: seq<Token>, src: string, j: nat, acc: seq<Entry>, lo: nat)
    requires WellFormedTokens(ts, src) && j < |ts|
    requires lo <= ts[j].span.start.cursor
    requires CollectedEntries(acc, src, lo, ts[j].span.start.cursor)
    ensures EntriesOutcome(ParsedMember(ts, src, j, acc), ts, src, lo)
    decreases |ts| - j, 2
  {
    KeyFacts(ts, src, j);
    var key := ParsedString(ts, j);
    if !key.result.Ok? {
      assert ParsedMember(ts, src, j, acc) == Parsed(key.result.PropagateFailure(), key.next);
    } else {
      var c := key.next;
      ConsumeStaysInside(ts, c, Colon);
      var colon := Consumed(ts, c, Colon);
      if !colon.result.Ok? {
        assert ParsedMember(ts, src, j, acc) == Parsed(colon.result.PropagateFailure(), c);
      } else {
        MemberAfterColon(ts, src, j, c + 1, key.result.value.value, acc, lo);
      }
    }
  }

  /** A key is one string token; reading it never aborts on well-formed
      tokens. */
  lemma KeyFacts(ts: seq<Token>, src: string, j: nat)
    requires WellFormedTokens(ts, src) && j < |ts|
    ensures var r := ParsedString(ts, j);
            && r.next < |ts| && !r.result.Panic?
            && (r.result.Ok? <==> ts[j].kind == StringLiteral)
            && (r.result.Ok? ==> r.next == j + 1)
  {
    assert WellFormedToken(ts[j], src);
  }

  /** A member from its value on, the value starting at token `c`. */
  lemma {:induction false} MemberAfterColon(ts: seq<Token>, src: string, j: nat, c: nat, key: string, acc: seq<Entry>, lo: nat)
    requires WellFormedTokens(ts, src) && j < c < |ts|
    requires lo <= ts[j].span.start.cursor
    requires CollectedEntries(acc, src, lo, ts[j].span.start.cursor)
    ensures EntriesOutcome(MemberValue(ts, src, c, key, acc), ts, src, lo)
    decreases |ts| - c, 5
  {
    ValueFacts(ts, src, c);
    var v := ParsedValue(ts, src, c);
    if v.result.Ok? {
      var k := v.next;
      var e := Entry(key, v.result.value);
      TokenOrder(ts, src, j, c);
      TokenOrder(ts, src, c, k);
      TokenOrder(ts, src, k - 1, k);
      CollectedEntriesAppend(acc, e, src, lo, ts[j].span.start.cursor, ts[k].span.start.cursor);
      AfterMemberFacts(ts, src, k, acc + [e], lo);
    }
  }

  lemma {:induction false} AfterMemberFacts(ts: seq<Token>, src: string, k: nat, acc: seq<Entry>, lo: nat)
    requires WellFormedTokens(ts, src) && k < |ts|
    requires lo <= ts[k].span.start.cursor
    requires CollectedEntries(acc, src, lo, ts[k].span.start.cursor)
    ensures EntriesOutcome(AfterMember(ts, src, k, acc), ts, src, lo)
    decreases |ts| - k, 4
  {
    if ts[k].kind != ClosedCurlyBrace {
      ConsumeStaysInside(ts, k, Comma);
      if ts[k].kind == Comma {
        TokenOrder(ts, src, k, k + 1);
        assert CollectedEntries(acc, src, lo, ts[k + 1].span.start.cursor);
        MembersFacts(ts, src, k + 1, acc, lo);
      }
    } else {
      MembersFacts(ts, src, k, acc, lo);
    }
  }

  // ---------------------------------------------------------------------
  // What `parse` promises
  // ---------------------------------------------------------------------

  /** `parse` returns an array or an object, built well formed from the
      source and spanning the tokens from the first on; a tokenizer error
      comes back unchanged; a first token other than `[` or `{` is refused;
      and the only aborts are the grammar's own. */
  lemma ParseSourceFacts(src: string, comments: bool)
    ensures var r := ParseSource(src, comments);
            && (r.Ok? ==> (r.value.Array? || r.value.Object?) && WellFormedNode(r.value, src))
            && OnlyGrammarPanics(r)
    ensures Tokenized(src, comments).Err? ==> ParseSource(src, comments) == Err(Tokenized(src, comments).message)
    ensures Tokenized(src, comments).Ok? ==>
              var ts := Tokenized(src, comments).value;
              ts[0].kind != OpenSquareBracket && ts[0].kind != OpenCurlyBrace ==>
                ParseSource(src, comments) == Err(RootMessage)
  {
    TokenizeFailure(src, comments);
    if Tokenized(src, comments).Ok? {
      var ts := Tokenized(src, comments).value;
      TokenizeWellFormed(src, comments);
      RootFacts(ts, src);
    }
  }

  /** The root read from well-formed tokens. */
  lemma RootFacts(ts: seq<Token>, src: string)
    requires WellFormedTokens(ts, src)
    ensures var r := ParsedRoot(ts, src).result;
            && (r.Ok? ==> (r.value.Array? || r.value.Object?) && WellFormedNode(r.value, src))
            && OnlyGrammarPanics(r)
    ensures ts[0].kind != OpenSquareBracket && ts[0].kind != OpenCurlyBrace ==>
              ParsedRoot(ts, src).result == Err(RootMessage)
  {
    if ts[0].kind == OpenSquareBracket {
      ArrayFacts(ts, src, 0);
      var p := ParsedArray(ts, src, 0);
      assert ParsedRoot(ts, src)
          == Parsed(if p.result.Ok? then Ok(Array(p.result.value)) else p.result.PropagateFailure(), p.next);
    } else if ts[0].kind == OpenCurlyBrace {
      ObjectFacts(ts, src, 0);
      var p := ParsedObject(ts, src, 0);
      assert ParsedRoot(ts, src)
          == Parsed(if p.result.Ok? then Ok(Object(p.result.value)) else p.result.PropagateFailure(), p.next);
    }
  }

  /** `parse_value` aborts on a token that cannot begin a value: a comma, a
      colon, a closing bracket or the end of input. */
  lemma ValuePanicsOnPunctuation(ts: seq<Token>, src: string, i: nat)
    requires i < |ts|
    ensures ts[i].kind in {Comma, Colon, ClosedSquareBracket, ClosedCurlyBrace, Eoi} ==>
              ParsedValue(ts, src, i) == Parsed(Panic(ValuePanic), i)
  {
  }

  /** A comma right after `[` reaches that abort: `[,]` is not an error
      but an abort. */
  lemma LeadingCommaPanics(ts: seq<Token>, src: string, i: nat)
    requires i + 1 < |ts| && ts[i].kind == OpenSquareBracket && ts[i + 1].kind == Comma
    ensures ParsedArray(ts, src, i).result == Panic(ValuePanic)
  {
    assert ParsedValue(ts, src, i + 1).result == Panic(ValuePanic);
    assert ParsedElements(ts, src, i + 1, []).result == Panic(ValuePanic);
  }

  /** A value in an object reaches it too: `{"a":}` aborts. */
  lemma MissingValuePanics(ts: seq<Token>, src: string, j: nat, acc: seq<Entry>)
    requires j + 2 < |ts| && ts[j].kind == StringLiteral && |ts[j].raw| >= 2
    requires ts[j + 1].kind == Colon && ts[j + 2].kind == ClosedCurlyBrace
    ensures ParsedMember(ts, src, j, acc).result == Panic(ValuePanic)
  {
    assert ParsedValue(ts, src, j + 2).result == Panic(ValuePanic);
    assert MemberValue(ts, src, j + 2, ts[j].raw[1..|ts[j].raw| - 1], acc).result == Panic(ValuePanic);
  }

  /** After a value, `]` ends the list and so does `,` then `]`: the
      trailing comma is accepted and changes nothing. Anything else must be
      a comma. */
  lemma TrailingCommaAccepted(ts: seq<Token>, src: string, k: nat, acc: seq<Node>)
    requires k < |ts|
    ensures ts[k].kind == ClosedSquareBracket ==> AfterElement(ts, src, k, acc) == Parsed(Ok(acc), k)
    ensures k + 1 < |ts| && ts[k].kind == Comma && ts[k + 1].kind == ClosedSquareBracket ==>
              AfterElement(ts, src, k, acc) == Parsed(Ok(acc), k + 1)
    ensures ts[k].kind != ClosedSquareBracket && ts[k].kind != Comma ==>
              AfterElement(ts, src, k, acc) == Parsed(Err(UnexpectedMessage(ts[k].kind, Comma)), k)
  {
  }

  /** The same for the members of an object. */
  lemma TrailingCommaAcceptedInObject(ts: seq<Token>, src: string, k: nat, acc: seq<Entry>)
    requires k < |ts|
    ensures ts[k].kind == ClosedCurlyBrace ==> AfterMember(ts, src, k, acc) == Parsed(Ok(acc), k)
    ensures k + 1 < |ts| && ts[k].kind == Comma && ts[k + 1].kind == ClosedCurlyBrace ==>
              AfterMember(ts, src, k, acc) == Parsed(Ok(acc), k + 1)
    ensures ts[k].kind != ClosedCurlyBrace && ts[k].kind != Comma ==>
              AfterMember(ts, src, k, acc) == Parsed(Err(UnexpectedMessage(ts[k].kind, Comma)), k)
  {
  }

  /** The element loop stops at `Eoi`, and then the closing bracket is
      missing: `consume` reports it. */
  lemma MissingCloseBracket(ts: seq<Token>, src: string, i: nat)
    requires i < |ts|
    requires var e := ParsedElements(ts, src, i + 1, []);
             ts[i].kind == OpenSquareBracket && e.result.Ok? && e.next < |ts| && ts[e.next].kind == Eoi
    ensures ParsedArray(ts, src, i).result == Err(UnexpectedMessage(Eoi, ClosedSquareBracket))
  {
  }

  /** The same for the closing brace of an object. */
  lemma MissingCloseBrace(ts: seq<Token>, src: string, i: nat)
    requires i < |ts|
    requires var e := ParsedMembers(ts, src, i + 1, []);
             ts[i].kind == OpenCurlyBrace && e.result.Ok? && e.next < |ts| && ts[e.next].kind == Eoi
    ensures ParsedObject(ts, src, i).result == Err(UnexpectedMessage(Eoi, ClosedCurlyBrace))
  {
  }

  /** A key must be followed by a colon. */
  lemma MissingColon(ts: seq<Token>, src: string, j: nat, acc: seq<Entry>)
    requires j + 1 < |ts| && ts[j].kind == StringLiteral && |ts[j].raw| >= 2
    requires ts[j + 1].kind != Colon
    ensures ParsedMember(ts, src, j, acc) == Parsed(Err(UnexpectedMessage(ts[j + 1].kind, Colon)), j + 1)
  {
  }

  /** A key must be a string. */
  lemma KeyMustBeString(ts: seq<Token>, src: string, j: nat, acc: seq<Entry>)
    requires j < |ts| && ts[j].kind != StringLiteral
    ensures ParsedMember(ts, src, j, acc) == Parsed(Err(UnexpectedMessage(ts[j].kind, StringLiteral)), j)
  {
  }

  // ---------------------------------------------------------------------
  // The `parse_value` abort reached from source text
  // ---------------------------------------------------------------------

  /** Any token sequence that begins `[` `,` aborts in `parse_value`. */
  lemma LeadingCommaRootPanics(ts: seq<Token>, src: string)
    requires |ts| > 1 && ts[0].kind == OpenSquareBracket && ts[1].kind == Comma
    ensures ParsedRoot(ts, src).result == Panic(ValuePanic)
  {
    LeadingCommaPanics(ts, src, 0);
    assert TokenAt(ts, 0) == Ok(ts[0]);
  }

  /** Any token sequence that begins `{`, a string key, `:`, `}` aborts in
      `parse_value`. */
  lemma MissingValueRootPanics(ts: seq<Token>, src: string)
    requires |ts| > 3 && ts[0].kind == OpenCurlyBrace && ts[1].kind == StringLiteral && |ts[1].raw| >= 2
    requires ts[2].kind == Colon && ts[3].kind == ClosedCurlyBrace
    ensures ParsedRoot(ts, src).result == Panic(ValuePanic)
  {
    MissingValuePanics(ts, src, 1, []);
    assert ParsedMembers(ts, src, 1, []).result == Panic(ValuePanic);
    assert ParsedObject(ts, src, 0).result == Panic(ValuePanic);
    assert TokenAt(ts, 0) == Ok(ts[0]);
  }

  /** `[,]` aborts rather than reporting an error. */
  lemma LeadingCommaExample(comments: bool)
    ensures ParseSource("[,]", comments) == Panic(ValuePanic)
  {
    LeadingCommaText("[,]", comments);
  }

  lemma LeadingCommaText(src: string, comments: bool)
    requires |src| == 3 && src[0] == '[' && src[1] == ',' && src[2] == ']'
    ensures ParseSource(src, comments) == Panic(ValuePanic)
  {
    var toks := LeadingCommaLexes(src);
    var ts := [] + toks + [EndOfInput(LexEnd(Position.Start(), toks))];
    RunLexes(src, comments, Position.Start(), [], toks);
    assert Tokenized(src, comments) == Ok(ts);
    assert ts[..3] == toks;
    LeadingCommaRootPanics(ts, src);
  }

  /** `{"a":}` aborts rather than reporting an error. */
  lemma MissingValueExample(comments: bool)
    ensures ParseSource("{\"a\":}", comments) == Panic(ValuePanic)
  {
    MissingValueText("{\"a\":}", comments);
  }

  lemma MissingValueText(src: string, comments: bool)
    requires |src| == 6 && src[0] == '{' && src[1] == '"' && src[2] == 'a' && src[3] == '"' && src[4] == ':' && src[5] == '}'
    ensures ParseSource(src, comments) == Panic(ValuePanic)
  {
    var toks := MissingValueLexes(src);
    var ts := [] + toks + [EndOfInput(LexEnd(Position.Start(), toks))];
    RunLexes(src, comments, Position.Start(), [], toks);
    assert Tokenized(src, comments) == Ok(ts);
    assert ts[..4] == toks;
    MissingValueRootPanics(ts, src);
  }

  // ---------------------------------------------------------------------
  // The parser object (parser.rs:11-214)
  // ---------------------------------------------------------------------

  class Parser {
    const tokenizer: Tokenizer
    var tokens: seq<Token>
    var index: nat
    var source: Option<string>

    ghost predicate Valid()
      reads this, tokenizer
    {
      tokenizer.Valid() && index <= |tokens|
    }

    /** `Parser::new(comments)`: a fresh tokenizer, no tokens, no source. */
    constructor (comments: bool)
      ensures Valid() && fresh(tokenizer)
      ensures tokenizer.comments == comments && tokens == [] && index == 0 && source == None
    {
      tokenizer := new Tokenizer(comments);
      tokens := [];
      index := 0;
      source := None;
    }

    static method NewWithoutComments() returns (p: Parser)
      ensures fresh(p) && fresh(p.tokenizer) && p.Valid()
      ensures !p.tokenizer.comments && p.tokens == [] && p.index == 0 && p.source == None
    {
      p := new Parser(false);
    }

    static method NewWithComments() returns (p: Parser)
      ensures fresh(p) && fresh(p.tokenizer) && p.Valid()
      ensures p.tokenizer.comments && p.tokens == [] && p.index == 0 && p.source == None
    {
      p := new Parser(true);
    }

    /** `reset`: no tokens, index 0, no source. */
    method Reset()
      requires Valid()
      modifies this`tokens, this`index, this`source
      ensures Valid() && tokens == [] && index == 0 && source == None
    {
      tokens := [];
      index := 0;
      source := None;
    }

    /** `peek(offset)`: the token `offset` places after the current one; the
        `expect` aborts past the end of the list. */
    function Peek(offset: nat): (r: Result<Token>)
      reads this
      ensures r.Ok? <==> index + offset < |tokens|
      ensures r.Ok? ==> r.value == tokens[index + offset]
      ensures r.Panic? ==> r.message == PeekPanic
    {
      TokenAt(tokens, index + offset)
    }

    function Current(): (r: Result<Token>)
      reads this
      ensures r.Ok? <==> index < |tokens|
      ensures r.Ok? ==> r.value == tokens[index]
    {
      Peek(0)
    }

    /** `consume(kind)`. */
    method Consume(kind: TokenKind) returns (r: Result<Token>)
      modifies this`index
      ensures Parsed(r, index) == Consumed(tokens, old(index), kind)
    {
      if index >= |tokens| {
        return Panic(ConsumePanic);
      }
      var token := tokens[index];
      if token.kind != kind {
        return Err(UnexpectedMessage(token.kind, kind));
      }
      index := index + 1;
      return Ok(token);
    }

    method ParseNullLiteral() returns (r: Result<NullNode>)
      modifies this`index
      ensures Parsed(r, index) == ParsedNull(tokens, old(index))
    {
      var token :- Consume(NullLiteral);
      return Ok(NullNode(token.span, token.raw));
    }

    method ParseBooleanLiteral() returns (r: Result<BooleanNode>)
      modifies this`index
      ensures Parsed(r, index) == ParsedBoolean(tokens, old(index))
    {
      var token :- Consume(BooleanLiteral);
      var value :- DecodeBoolean(token.raw);
      return Ok(BooleanNode(token.span, value, token.raw));
    }

    method ParseNumberLiteral() returns (r: Result<NumberNode>)
      modifies this`index
      ensures Parsed(r, index) == ParsedNumber(tokens, old(index))
    {
      var token :- Consume(NumberLiteral);
      var value :- DecodeNumber(token.raw);
      return Ok(NumberNode(token.span, value, token.raw));
    }

    method ParseStringLiteral() returns (r: Result<StringNode>)
      modifies this`index
      ensures Parsed(r, index) == ParsedString(tokens, old(index))
    {
      var token :- Consume(StringLiteral);
      var value :- StringContent(token.raw);
      return Ok(StringNode(token.span, value, token.raw));
    }

    /** `parse_value`: dispatches on the current token. */
    method ParseValue() returns (r: Result<Node>)
      requires Valid() && source.Some?
      modifies this`index
      ensures Valid()
      ensures Parsed(r, index) == ParsedValue(tokens, source.value, old(index))
      decreases |tokens| - index, 1
    {
      var current :- Current();
      if current.kind == NullLiteral {
        // `consume` cannot fail here, so there is nothing to propagate.
        var n := ParseNullLiteral();
        return match n
          case Ok(v) => Ok(Null(v))
          case Err(e) => Err(e)
          case Panic(e) => Panic(e);
      } else if current.kind == BooleanLiteral {
        var n :- ParseBooleanLiteral();
        return Ok(Boolean(n));
      } else if current.kind == NumberLiteral {
        var n :- ParseNumberLiteral();
        return Ok(Number(n));
      } else if current.kind == StringLiteral {
        var n :- ParseStringLiteral();
        return Ok(String(n));
      } else if current.kind == OpenSquareBracket {
        var n :- ParseArrayLiteral();
        return Ok(Array(n));
      } else if current.kind == OpenCurlyBrace {
        var n :- ParseObjectLiteral();
        return Ok(Object(n));
      }
      return Panic(ValuePanic);
    }

    /** `parse_array_literal`: `[`, values separated by commas (a trailing
        one allowed), `]`. */
    method ParseArrayLiteral() returns (r: Result<ArrayNode>)
      requires Valid() && source.Some?
      modifies this`index
      ensures Valid()
      ensures Parsed(r, index) == ParsedArray(tokens, source.value, old(index))
      decreases |tokens| - index, 0
    {
      var src := source.value;
      var open :- Consume(OpenSquareBracket);
      var start := open.span.start;
      var first := index;
      var elements: seq<Node> := [];
      while true
        invariant Valid() && first <= index
        invariant ParsedElements(tokens, src, index, elements) == ParsedElements(tokens, src, first, [])
        decreases |tokens| - index
      {
        var current :- Current();
        if current.kind == ClosedSquareBracket || current.kind == Eoi {
          break;
        }
        var value :- ParseValue();
        elements := elements + [value];
        var next :- Current();
        if next.kind != ClosedSquareBracket {
          var _ :- Consume(Comma);
        }
      }
      var close :- Consume(ClosedSquareBracket);
      var end := close.span.end;
      var raw :- SourceSlice(src, start.cursor, end.cursor);
      return Ok(ArrayNode(Span.New(start, end), elements, raw));
    }

    /** `parse_object_literal`: `{`, members `key: value` separated by
        commas (a trailing one allowed), `}`; a repeated key keeps its last
        value. */
    method ParseObjectLiteral() returns (r: Result<ObjectNode>)
      requires Valid() && source.Some?
      modifies this`index
      ensures Valid()
      ensures Parsed(r, index) == ParsedObject(tokens, source.value, old(index))
      decreases |tokens| - index, 0
    {
      var open :- Consume(OpenCurlyBrace);
      var start := open.span.start;
      var members, entries := ParseMembers();
      if !members.Ok? {
        return members.PropagateFailure();
      }
      r := CloseObject(old(index), start, entries, members.value);
    }

    /** The loop of `parse_object_literal`: members until `}` or `Eoi`, each
        inserted into the map, so a later key replaces an earlier one. The
        ghost `entries` are the members in the order they were read. */
    method ParseMembers() returns (r: Result<map<string, Node>>, ghost entries: seq<Entry>)
      requires Valid() && source.Some?
      modifies this`index
      ensures Valid() && old(index) <= index
      ensures r.Ok? ==> ParsedMembers(tokens, source.value, old(index), []) == Parsed(Ok(entries), index)
      ensures r.Ok? ==> r.value == ToMap(entries)
      ensures !r.Ok? ==> ParsedMembers(tokens, source.value, old(index), []) == Parsed(r.PropagateFailure(), index)
      decreases |tokens| - index, 3
    {
      var src := source.value;
      var first := index;
      var members: map<string, Node> := map[];
      entries := [];
      while true
        invariant Valid() && first <= index
        invariant members == ToMap(entries)
        invariant ParsedMembers(tokens, src, index, entries) == ParsedMembers(tokens, src, first, [])
        decreases |tokens| - index
      {
        var current := Current();
        if !current.Ok? {
          return current.PropagateFailure(), entries;
        }
        if current.value.kind == ClosedCurlyBrace || current.value.kind == Eoi {
          break;
        }
        assert ParsedMembers(tokens, src, index, entries) == ParsedMember(tokens, src, index, entries);
        var entry := ParseMember(entries);
        if !entry.Ok? {
          return entry.PropagateFailure(), entries;
        }
        assert (entries + [entry.value])[..|entries|] == entries;
        members := members[entry.value.key := entry.value.value];
        entries := entries + [entry.value];
      }
      return Ok(members), entries;
    }

    /** The end of `parse_object_literal` once its loop has collected
        `entries`: the closing brace, then the node from `start` to it. */
    method CloseObject(ghost i: nat, start: Position, ghost entries: seq<Entry>, members: map<string, Node>)
      returns (r: Result<ObjectNode>)
      requires Valid() && source.Some?
      requires i < index && tokens[i].kind == OpenCurlyBrace && start == tokens[i].span.start
      requires ParsedMembers(tokens, source.value, i + 1, []) == Parsed(Ok(entries), index)
      requires members == ToMap(entries)
      modifies this`index
      ensures Valid()
      ensures Parsed(r, index) == ParsedObject(tokens, source.value, i)
    {
      var close :- Consume(ClosedCurlyBrace);
      var end := close.span.end;
      var raw :- SourceSlice(source.value, start.cursor, end.cursor);
      return Ok(ObjectNode(Span.New(start, end), members, raw));
    }

    /** One pass of the loop of `parse_object_literal`: a string key, a
        colon, a value, then a comma unless `}` follows. After the entries
        `acc` the loop goes on with the entry returned appended. */
    method ParseMember(ghost acc: seq<Entry>) returns (r: Result<Entry>)
      requires Valid() && source.Some?
      modifies this`index
      ensures Valid() && old(index) <= index
      ensures r.Ok? ==> old(index) < index
      ensures r.Ok? ==> ParsedMember(tokens, source.value, old(index), acc)
                        == ParsedMembers(tokens, source.value, index, acc + [r.value])
      ensures !r.Ok? ==> ParsedMember(tokens, source.value, old(index), acc)
                         == Parsed(r.PropagateFailure(), index)
      decreases |tokens| - index, 2
    {
      var key :- ParseStringLiteral();
      var _ :- Consume(Colon);
      ghost var c := index;
      assert ParsedMember(tokens, source.value, old(index), acc)
          == MemberValue(tokens, source.value, c, key.value, acc);
      var value :- ParseValue();
      assert MemberValue(tokens, source.value, c, key.value, acc)
          == AfterMember(tokens, source.value, index, acc + [Entry(key.value, value)]);
      var _ :- SkipMemberSeparator(acc + [Entry(key.value, value)]);
      return Ok(Entry(key.value, value));
    }

    /** The end of the loop body of `parse_object_literal`: a comma, unless
        `}` follows. */
    method SkipMemberSeparator(ghost acc: seq<Entry>) returns (r: Result<()>)
      requires Valid() && source.Some?
      modifies this`index
      ensures Valid() && old(index) <= index
      ensures r.Ok? ==> AfterMember(tokens, source.value, old(index), acc) == ParsedMembers(tokens, source.value, index, acc)
      ensures !r.Ok? ==> AfterMember(tokens, source.value, old(index), acc) == Parsed(r.PropagateFailure(), index)
    {
      var next :- Current();
      if next.kind != ClosedCurlyBrace {
        var _ :- Consume(Comma);
      }
      return Ok(());
    }

    /** `parse(source)`: tokenizes, then reads an array or an object. */
    method Parse(src: string) returns (r: Result<Node>)
      requires Valid()
      modifies this, tokenizer
      ensures Valid() && source == Some(src)
      ensures r == ParseSource(src, tokenizer.comments)
      ensures tokenizer.position == Run(src, tokenizer.comments, Position.Start(), []).1
      ensures Tokenized(src, tokenizer.comments).Ok? ==>
                tokens == Tokenized(src, tokenizer.comments).value && index == ParsedRoot(tokens, src).next
      ensures !Tokenized(src, tokenizer.comments).Ok? ==> tokens == [] && index == 0
    {
      Reset();
      source := Some(src);
      var ts :- tokenizer.Tokenize(src);
      tokens := ts;
      var current :- Current();
      if current.kind == OpenSquareBracket {
        var n :- ParseArrayLiteral();
        return Ok(Array(n));
      } else if current.kind == OpenCurlyBrace {
        var n :- ParseObjectLiteral();
        return Ok(Object(n));
      }
      return Err(RootMessage);
    }
  }
}
