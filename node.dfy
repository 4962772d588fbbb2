/** Positions, spans and the syntax tree (src/parser/node.rs). */
module Nodes {
  import opened Results

  // ---------------------------------------------------------------------
  // Line breaks: the pattern `(\n\r|\n)` that `add_from_str` splits on
  // ---------------------------------------------------------------------

  /** Number of occurrences of `c` in `s`. */
  function CountOf(s: string, c: char): nat
  {
    if |s| == 0 then 0 else (if s[0] == c then 1 else 0) + CountOf(s[1..], c)
  }

  lemma {:induction false} CountOfZero(s: string, c: char)
    ensures CountOf(s, c) == 0 <==> c !in s
  {
    if |s| > 0 {
      CountOfZero(s[1..], c);
      assert s == [s[0]] + s[1..];
    }
  }

  /** The index of the last `c` in `s`, if there is one. */
  function LastIndexOf(s: string, c: char): (r: Option<nat>)
    ensures r.None? <==> c !in s
    ensures r.Some? ==> r.value < |s| && s[r.value] == c
    ensures r.Some? ==> forall k :: r.value < k < |s| ==> s[k] != c
  {
    if |s| == 0 then None
    else if s[|s| - 1] == c then Some(|s| - 1)
    else
      assert s == s[..|s| - 1] + [s[|s| - 1]];
      LastIndexOf(s[..|s| - 1], c)
  }

  lemma LastIndexOfIs(s: string, c: char, i: nat)
    requires i < |s| && s[i] == c
    requires forall k :: i < k < |s| ==> s[k] != c
    ensures LastIndexOf(s, c) == Some(i)
  {
    assert s[i] == c;
  }

  /** The text after the last line break of `s`, where a `\n` followed by `\r`
      is one two-character break; all of `s` when it holds no `\n`. */
  function AfterLastBreak(s: string): string
  {
    match LastIndexOf(s, '\n')
    case None => s
    case Some(i) => if i + 1 < |s| && s[i + 1] == '\r' then s[i + 2..] else s[i + 1..]
  }

  /** When the suffix `s[d..]` holds a `\n`, the last break of `s` lies in it. */
  lemma AfterLastBreakSuffix(s: string, d: nat)
    requires d <= |s| && '\n' in s[d..]
    ensures AfterLastBreak(s) == AfterLastBreak(s[d..])
  {
    var j := LastIndexOf(s[d..], '\n').value;
    forall k | d + j < k < |s| ensures s[k] != '\n' {
      assert s[k] == s[d..][k - d];
    }
    LastIndexOfIs(s, '\n', d + j);
  }

  /** `s` split at its line breaks (node.rs:6, 119-120). Separators are found
      leftmost first and, at a `\n`, `\n\r` is preferred over `\n`; an empty
      piece is kept at either end, as the regex crate's `split` does. */
  function SplitLines(s: string): (pieces: seq<string>)
    ensures |pieces| == CountOf(s, '\n') + 1
    ensures pieces[|pieces| - 1] == AfterLastBreak(s)
    decreases |s|
  {
    if |s| == 0 then [""]
    else if s[0] == '\n' then
      var rest := if |s| > 1 && s[1] == '\r' then s[2..] else s[1..];
      SplitAtBreak(s, rest);
      [""] + SplitLines(rest)
    else
      var rest := SplitLines(s[1..]);
      CharPieces(s, rest);
      [[s[0]] + rest[0]] + rest[1..]
  }

  /** No piece holds a line break. */
  lemma {:induction false} SplitLinesHaveNoBreaks(s: string)
    ensures forall i :: 0 <= i < |SplitLines(s)| ==> '\n' !in SplitLines(s)[i]
    decreases |s|
  {
    if |s| > 0 {
      var pieces := SplitLines(s);
      if s[0] == '\n' {
        var rest := if |s| > 1 && s[1] == '\r' then s[2..] else s[1..];
        SplitLinesHaveNoBreaks(rest);
        var tail := SplitLines(rest);
        assert pieces == [""] + tail;
        assert forall i :: 0 < i < |pieces| ==> pieces[i] == tail[i - 1];
      } else {
        SplitLinesHaveNoBreaks(s[1..]);
        var rest := SplitLines(s[1..]);
        assert pieces == [[s[0]] + rest[0]] + rest[1..];
        assert forall i :: 0 < i < |pieces| ==> pieces[i] == rest[i];
        assert '\n' !in [s[0]] + rest[0];
      }
    }
  }

  /** The pieces of `s[1..]` with the ordinary character `s[0]` glued to the
      first of them are the pieces of `s`, counted and ended alike. */
  lemma CharPieces(s: string, rest: seq<string>)
    requires |s| > 0 && s[0] != '\n'
    requires |rest| == CountOf(s[1..], '\n') + 1
    requires rest[|rest| - 1] == AfterLastBreak(s[1..])
    ensures var pieces := [[s[0]] + rest[0]] + rest[1..];
            && |pieces| == CountOf(s, '\n') + 1
            && pieces[|pieces| - 1] == AfterLastBreak(s)
  {
    SplitOnChar(s);
    CountOfZero(s[1..], '\n');
    var first := [s[0]] + rest[0];
    var pieces := [first] + rest[1..];
    if |rest| == 1 {
      assert first == s;
    } else {
      assert pieces[|pieces| - 1] == rest[|rest| - 1];
    }
  }

  /** The facts about a leading break that SplitLines relies on. */
  lemma SplitAtBreak(s: string, rest: string)
    requires |s| > 0 && s[0] == '\n'
    requires rest == if |s| > 1 && s[1] == '\r' then s[2..] else s[1..]
    ensures CountOf(s, '\n') == CountOf(rest, '\n') + 1
    ensures AfterLastBreak(s) == AfterLastBreak(rest)
  {
    var d := |s| - |rest|;
    assert rest == s[d..];
    if d == 2 {
      assert s[1..][1..] == s[2..];
    }
    if '\n' in rest {
      AfterLastBreakSuffix(s, d);
    } else {
      forall k | 0 < k < |s| ensures s[k] != '\n' {
        if k >= d {
          assert s[k] == rest[k - d];
        }
      }
      LastIndexOfIs(s, '\n', 0);
      assert AfterLastBreak(rest) == rest by {
        assert LastIndexOf(rest, '\n').None?;
      }
    }
  }

  /** The facts about a leading ordinary character that SplitLines relies on. */
  lemma SplitOnChar(s: string)
    requires |s| > 0 && s[0] != '\n'
    ensures CountOf(s, '\n') == CountOf(s[1..], '\n')
    ensures '\n' in s[1..] ==> AfterLastBreak(s) == AfterLastBreak(s[1..])
    ensures '\n' !in s[1..] ==> AfterLastBreak(s) == s && AfterLastBreak(s[1..]) == s[1..]
  {
    if '\n' in s[1..] {
      AfterLastBreakSuffix(s, 1);
    } else {
      assert s == [s[0]] + s[1..];
      assert '\n' !in s;
      assert LastIndexOf(s[1..], '\n').None?;
    }
  }

  // ---------------------------------------------------------------------
  // Position (node.rs:17-186)
  // ---------------------------------------------------------------------

  /** A place in the source: `cursor` is the offset from the start of the
      source, `line` is 1-based and `column` is 0-based. Rust's `Position` is a
      `Copy` value; each `&mut self` mutator is modelled as a function that
      returns the updated value. */
  datatype Position = Position(cursor: nat, line: nat, column: nat) {

    /** The invariant `Position::new` guards: the line is never zero. */
    ghost predicate Valid() {
      line >= 1
    }

    /** `Position::new` panics on a zero line, so its callers must pass one. */
    static function New(cursor: nat, line: nat, column: nat): (p: Position)
      requires line != 0
      ensures p.Valid()
      ensures p.cursor == cursor && p.line == line && p.column == column
    {
      Position(cursor, line, column)
    }

    /** The position before the first character of a source. */
    static function Start(): (p: Position)
      ensures p.cursor == 0 && p.line == 1 && p.column == 0
      ensures p.Valid()
    {
      Position(0, 1, 0)
    }

    function AddCursor(amount: nat): (p: Position)
      ensures p.cursor == cursor + amount && p.line == line && p.column == column
    {
      this.(cursor := cursor + amount)
    }

    function AddLines(amount: nat): (p: Position)
      ensures p.cursor == cursor && p.line == line + amount && p.column == column
    {
      this.(line := line + amount)
    }

    function AddLineAndCursor(): (p: Position)
      ensures p == AddLinesAndCursor(1)
      ensures p.cursor == cursor + 1 && p.line == line + 1 && p.column == 0
    {
      AddLinesAndCursor(1)
    }

    /** Moves `amount` lines down, advancing the cursor by `amount` only, and
        starts the column afresh. */
    function AddLinesAndCursor(amount: nat): (p: Position)
      ensures p.cursor == cursor + amount && p.line == line + amount && p.column == 0
    {
      this.(line := line + amount).AddCursor(amount).ResetColumn()
    }

    function ResetColumn(): (p: Position)
      ensures p.cursor == cursor && p.line == line && p.column == 0
    {
      this.(column := 0)
    }

    function AddColumn(): (p: Position)
      ensures p == AddColumns(1)
    {
      AddColumns(1)
    }

    /** Moves `amount` characters right on the same line. */
    function AddColumns(amount: nat): (p: Position)
      ensures p.cursor == cursor + amount && p.line == line && p.column == column + amount
    {
      Position(cursor + amount, line, column + amount)
    }

    /** Advances over the text `s` as the source does (node.rs:112-150): with
        no line break it is `add_columns(|s|)`; with `k` breaks the line grows
        by `k`, the cursor by `|s|`, and the column GROWS by the length of the
        text after the last break instead of being set to it. */
    function AddFromStr(s: string): (p: Position)
      ensures |s| == 0 ==> p == this
      ensures '\n' !in s ==> p == AddColumns(|s|)
      ensures '\n' in s ==>
        p == Position(cursor + |s|, line + CountOf(s, '\n'), column + |AfterLastBreak(s)|)
    {
      if |s| == 0 then this
      else
        var lines := SplitLines(s);
        CountOfZero(s, '\n');
        if |lines| == 1 then AddColumns(|lines[0]|)
        else
          var q := AddLines(|lines| - 1).AddCursor(|s|);
          q.(column := q.column + |lines[|lines| - 1]|)
    }

    /** The advance the comments at node.rs:145-149 and 151-152 describe: the
        column after the last break is the length of the text after it. */
    function AddFromStrResettingColumn(s: string): (p: Position)
      ensures '\n' !in s ==> p == AddFromStr(s)
      ensures '\n' in s ==> p == AddFromStr(s).(column := |AfterLastBreak(s)|)
    {
      if '\n' !in s then AddColumns(|s|)
      else Position(cursor + |s|, line + CountOf(s, '\n'), |AfterLastBreak(s)|)
    }
  }

  /** Every mutator keeps `line >= 1` and never moves the cursor backwards. */
  lemma MutatorsPreserveValidity(p: Position, amount: nat, s: string)
    requires p.Valid()
    ensures var all := [p.AddCursor(amount), p.AddLines(amount), p.AddLineAndCursor(),
                        p.AddLinesAndCursor(amount), p.ResetColumn(), p.AddColumn(),
                        p.AddColumns(amount), p.AddFromStr(s)];
            forall q :: q in all ==> q.Valid() && q.cursor >= p.cursor
  {
  }

  lemma {:induction false} CountOfAppend(a: string, b: string, c: char)
    ensures CountOf(a + b, c) == CountOf(a, c) + CountOf(b, c)
  {
    if |a| > 0 {
      assert (a + b)[1..] == a[1..] + b;
      CountOfAppend(a[1..], b, c);
    } else {
      assert a + b == b;
    }
  }

  /** Where the last break of a concatenation lies. */
  lemma AfterLastBreakAppend(a: string, b: string)
    requires !(|a| > 0 && a[|a| - 1] == '\n' && |b| > 0 && b[0] == '\r')
    ensures '\n' in b ==> AfterLastBreak(a + b) == AfterLastBreak(b)
    ensures '\n' !in b ==> AfterLastBreak(a + b) == AfterLastBreak(a) + b
  {
    var s := a + b;
    assert s[|a|..] == b;
    if '\n' in b {
      AfterLastBreakSuffix(s, |a|);
    } else if '\n' in a {
      var i := LastIndexOf(a, '\n').value;
      forall k | i < k < |s| ensures s[k] != '\n' {
        if k >= |a| {
          assert s[k] == b[k - |a|];
        }
      }
      LastIndexOfIs(s, '\n', i);
      if i + 1 < |a| {
        assert s[i + 1] == a[i + 1];
        assert s[i + 2..] == a[i + 2..] + b;
        assert s[i + 1..] == a[i + 1..] + b;
      } else {
        assert i + 1 == |a|;
        assert s[i + 1..] == b;
      }
    } else {
      assert '\n' !in s by {
        forall k | 0 <= k < |s| ensures s[k] != '\n' {
          if k < |a| { assert s[k] == a[k]; } else { assert s[k] == b[k - |a|]; }
        }
      }
    }
  }

  /** The corrected advance composes: advancing over `a + b` is advancing over
      `a` and then over `b`, unless the cut splits a `\n\r` break in two. */
  lemma ResettingColumnComposes(p: Position, a: string, b: string)
    requires !(|a| > 0 && a[|a| - 1] == '\n' && |b| > 0 && b[0] == '\r')
    ensures p.AddFromStrResettingColumn(a + b)
         == p.AddFromStrResettingColumn(a).AddFromStrResettingColumn(b)
  {
    CountOfAppend(a, b, '\n');
    CountOfZero(a, '\n');
    CountOfZero(b, '\n');
    CountOfZero(a + b, '\n');
    AfterLastBreakAppend(a, b);
  }

  /** The advance as written does not compose: after `"a"` the column is 1,
      and the break in `"\nb"` adds one more instead of restarting it. */
  lemma AddFromStrDoesNotCompose()
    ensures Position.Start().AddFromStr("a\nb") == Position(3, 2, 1)
    ensures Position.Start().AddFromStr("a").AddFromStr("\nb") == Position(3, 2, 2)
  {
    var s, t := "a\nb", "\nb";
    LastIndexOfIs(s, '\n', 1);
    LastIndexOfIs(t, '\n', 0);
    assert AfterLastBreak(s) == "b" && AfterLastBreak(t) == "b";
    assert CountOf(s, '\n') == 1 && CountOf(t, '\n') == 1;
    assert s[1] == '\n' && t[0] == '\n';
    assert '\n' !in "a";
  }

  // ---------------------------------------------------------------------
  // Span (node.rs:188-236)
  // ---------------------------------------------------------------------

  /** A start and an end position, half-open over the cursor range. */
  datatype Span = Span(start: Position, end: Position) {

    static function New(start: Position, end: Position): (s: Span)
      ensures s.start == start && s.end == end
    {
      Span(start, end)
    }

    /** A span collapsed at the start of a source. */
    static function Empty(): (s: Span)
      ensures s == Collapsed(Position.Start())
    {
      Span(Position.Start(), Position.Start())
    }

    /** A span whose two ends are both `position`. */
    static function Collapsed(position: Position): (s: Span)
      ensures s.start == position && s.end == position
    {
      Span(position, position)
    }
  }

  // ---------------------------------------------------------------------
  // The syntax tree (node.rs:247-347)
  // ---------------------------------------------------------------------

  /** A decoded number literal. `f64` is not modelled: a float keeps the
      literal's text. */
  datatype NumberValue = Float(text: string) | Int(value: int)

  datatype NullNode = NullNode(span: Span, raw: string)

  datatype BooleanNode = BooleanNode(span: Span, value: bool, raw: string)

  datatype NumberNode = NumberNode(span: Span, value: NumberValue, raw: string)

  /** `raw` includes the quotes, `value` does not. */
  datatype StringNode = StringNode(span: Span, value: string, raw: string)

  /** `raw` includes the square brackets. */
  datatype ArrayNode = ArrayNode(span: Span, value: seq<Node>, raw: string)

  /** `raw` includes the curly braces. Rust's `HashMap` becomes a map, so no
      iteration order is modelled. */
  datatype ObjectNode = ObjectNode(span: Span, value: map<string, Node>, raw: string)

  datatype Node =
    | Null(null_: NullNode)
    | Boolean(boolean: BooleanNode)
    | Number(number: NumberNode)
    | String(string_: StringNode)
    | Array(array: ArrayNode)
    | Object(object: ObjectNode)
  {
    predicate IsNull() {
      match this
      case Null(_) => true
      case _ => false
    }

    predicate IsBoolean() {
      match this
      case Boolean(_) => true
      case _ => false
    }

    predicate IsNumber() {
      match this
      case Number(_) => true
      case _ => false
    }

    predicate IsString() {
      match this
      case String(_) => true
      case _ => false
    }

    predicate IsArray() {
      match this
      case Array(_) => true
      case _ => false
    }

    predicate IsObject() {
      match this
      case Object(_) => true
      case _ => false
    }

    /** The span every variant carries. */
    function SpanOf(): Span {
      match this
      case Null(n) => n.span
      case Boolean(n) => n.span
      case Number(n) => n.span
      case String(n) => n.span
      case Array(n) => n.span
      case Object(n) => n.span
    }

    /** The source text every variant carries. */
    function RawOf(): string {
      match this
      case Null(n) => n.raw
      case Boolean(n) => n.raw
      case Number(n) => n.raw
      case String(n) => n.raw
      case Array(n) => n.raw
      case Object(n) => n.raw
    }
  }

  /** Exactly one of the six `is_*` predicates holds of any node. */
  lemma ExactlyOneKind(n: Node)
    ensures (if n.IsNull() then 1 else 0) + (if n.IsBoolean() then 1 else 0)
          + (if n.IsNumber() then 1 else 0) + (if n.IsString() then 1 else 0)
          + (if n.IsArray() then 1 else 0) + (if n.IsObject() then 1 else 0) == 1
  {
  }
}
