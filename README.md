# json-parser.rs, modelled in Dafny

json-parser.rs reads JSON-like text and builds a syntax tree in which every
node carries its span in the source and the raw text it covers. The work
happens in three stages, and this project models all three.

1. **Position bookkeeping** (`src/parser/node.rs`). A `Position` is a
   cursor, a line and a column. Its mutators advance it past columns,
   lines or a whole string. `add_from_str` is the one that counts line
   breaks, and it treats `\n\r` and `\n` as separators. A `Span` is a pair
   of positions. A `Node` is one of six payload kinds: null, boolean,
   number, string, array or object.
2. **Tokenizer** (`src/parser/tokenizer.rs`). An ordered table holds
   eighteen anchored patterns. At the cursor the first row that matches
   wins, and the position then advances past the match. Newline and
   whitespace tokens are dropped. Comments are dropped, or rejected
   outright when the tokenizer was built without comment support. An
   end-of-input token (`Eoi`) closes the list.
3. **Parser** (`src/parser.rs`). A recursive-descent parser walks the
   token list with an index. `consume(kind)` checks the current token's
   kind. `parse_value` dispatches on that kind. The array and object loops
   accept a trailing comma. In an object a later duplicate key overwrites
   an earlier one. The root must be an array or an object.

The Dafny modules follow the same split:

- `results.dfy` (module `Results`) holds `Option`, and a `Result` with three
  outcomes. `Err` is Rust's `Err(String)`. `Panic` is a `panic!` or a failed
  `expect`/`unwrap`, which in the source aborts the program.
- `node.dfy` (module `Nodes`) holds `Position`, `Span` and the node types.
- `tokenizer.dfy` (module `Tokenizing`) holds the token kinds, the
  recognizer table, the step function `NextToken` and the loop `Run`, and
  the `Tokenizer` class. Its methods `GetToken` and `Tokenize` are
  imperative and are proved equal to `NextToken` and `Run`.
- `tokenizer_properties.dfy` (module `TokenizerProperties`) holds a
  reference scan. `RawScan` tokenizes as far as it can without filtering
  anything. The loop is proved to be that scan with the layout tokens
  filtered out. The module also proves the properties of the token list.
- `parser.dfy` (module `Parsing`) holds one specification function per
  parsing routine (`ParsedValue`, `ParsedArray`, `ParsedObject`, and the
  two loops `ParsedElements` and `ParsedMembers`). It proves the
  properties of the trees they build. It also holds the `Parser` class,
  whose methods mirror the source's routines with `while` loops over
  `index`. Each method is proved to leave `(result, index)` exactly as the
  matching function says.

Three behaviours of the code look unintended. The model keeps all three as
written and proves them:

- A `\n\r` newline advances the cursor by one character only. The `\r`
  that remains matches no pattern, so tokenizing fails
  (`NewLineCarriageReturnFails`, `CarriageReturnExample`).
  `AdvanceAsIntended` is a reference definition that advances past the
  whole match. `AdvanceAsIntendedAgrees` shows where the two agree and
  where they differ.
- `parse_value` ends in a `panic!` (src/parser.rs:73) for any token that cannot start a value. Ordinary malformed input reaches it: `[,]` and `{"a":}` abort the program instead of returning an error (`LeadingCommaExample`, `MissingValueExample`). The model keeps the abort.
- `add_from_str` adds the length of the last line to the column instead
  of setting the column to it. So advancing past `a` and then past `\nb`
  differs from advancing past `a\nb` (`AddFromStrDoesNotCompose`).
  `AddFromStrResettingColumn` is the column-resetting variant, and it does
  compose (`ResettingColumnComposes`).

`Position` is a Rust `Copy` struct. The tokenizer copies it by value into
every span (`old_position` at tokenizer.rs:169). So it is a Dafny
datatype, and every in-place mutator is a function that returns the
updated position. The tokenizer and the parser, which own their state,
are classes.

## Model

| member | source | states |
|---|---|---|
| Nodes.Position.New | src/parser/node.rs:26-36 | requires a non-zero line, as `new` panics otherwise; the result has exactly the given cursor, line and column |
| Nodes.Position.Start | src/parser/node.rs:39-45 | the start position is cursor 0, line 1, column 0 |
| Nodes.Position.AddCursor | src/parser/node.rs:69-71 | the cursor grows by `amount`; line and column are unchanged |
| Nodes.Position.AddLines | src/parser/node.rs:73-75 | the line grows by `amount`; cursor and column are unchanged |
| Nodes.Position.AddLineAndCursor | src/parser/node.rs:77-79 | equals `AddLinesAndCursor(1)`: one more line, one more cursor step, and column 0 |
| Nodes.Position.AddLinesAndCursor | src/parser/node.rs:83-87 | line and cursor grow by `amount`, and the column becomes 0 |
| Nodes.Position.ResetColumn | src/parser/node.rs:99-101 | the column becomes 0; cursor and line are unchanged |
| Nodes.Position.AddColumn | src/parser/node.rs:103-105 | equals `AddColumns(1)` |
| Nodes.Position.AddColumns | src/parser/node.rs:107-110 | column and cursor grow by `amount`, and the line is unchanged |
| Nodes.Position.AddFromStr | src/parser/node.rs:112-150 | the empty string changes nothing; a string without a line break acts like `AddColumns` of its length; otherwise the cursor grows by the length, the line by the number of separators, and the column by the length of the text after the last separator |
| Nodes.SplitLines | src/parser/node.rs:6 | splitting at `\n\r` or `\n` gives one more piece than there are `\n` characters, and the last piece is the text after the last separator |
| Nodes.SplitLinesHaveNoBreaks | src/parser/node.rs:6 | no piece of the split contains a `\n` |
| Nodes.LastIndexOf | src/parser/node.rs:112-150 | finds the last occurrence of a character, or reports that there is none |
| Nodes.CountOfAppend | src/parser/node.rs:112-150 | the separator count of a concatenation is the sum of the two counts |
| Nodes.AfterLastBreakAppend | src/parser/node.rs:112-150 | unless a `\n\r` straddles the join, the last line of `a + b` is the last line of `b`, or the last line of `a` followed by `b` when `b` has no break |
| Nodes.MutatorsPreserveValidity | src/parser/node.rs:69-150 | every mutator keeps `line >= 1` and never moves the cursor back |
| Nodes.AddFromStrDoesNotCompose | src/parser/node.rs:146-150 | advancing past `a` and then past `\nb` ends at column 2, but advancing past `a\nb` ends at column 1 |
| Nodes.Position.AddFromStrResettingColumn | src/parser/node.rs:112-150 | reference variant that sets the column to the length of the last line; it agrees with `AddFromStr` on text without a break |
| Nodes.ResettingColumnComposes | src/parser/node.rs:112-150 | the resetting variant over `a + b` equals the variant over `a` and then over `b`, unless a `\n\r` straddles the join |
| Nodes.Span.New | src/parser/node.rs:195-197 | the span has exactly the given ends |
| Nodes.Span.Empty | src/parser/node.rs:201-206 | equals the span collapsed at the start position |
| Nodes.Span.Collapsed | src/parser/node.rs:209-214 | both ends are the given position |
| Nodes.Node.IsNull | src/parser/node.rs:258-263 | true exactly for the null variant |
| Nodes.Node.IsBoolean | src/parser/node.rs:265-270 | true exactly for the boolean variant |
| Nodes.Node.IsNumber | src/parser/node.rs:272-277 | true exactly for the number variant |
| Nodes.Node.IsString | src/parser/node.rs:279-284 | true exactly for the string variant |
| Nodes.Node.IsArray | src/parser/node.rs:286-291 | true exactly for the array variant |
| Nodes.Node.IsObject | src/parser/node.rs:293-298 | true exactly for the object variant |
| Nodes.ExactlyOneKind | src/parser/node.rs:247-298 | exactly one of `IsNull` to `IsObject` holds for every node |
| Tokenizing.RunEnd | src/parser/tokenizer.rs:81 | the end of the longest run of one character class from `i`: everything before it is in the class, and the next character is not |
| Tokenizing.FindCommentEnd | src/parser/tokenizer.rs:83 | the first closing star-slash at or after `i`, or none |
| Tokenizing.Pattern.Find | src/parser/tokenizer.rs:18-20 | a match is always a prefix of the input |
| Tokenizing.TokenSpec.Test | src/parser/tokenizer.rs:18-20 | a row's test returns its pattern's match, a prefix of the input |
| Tokenizing.Table | src/parser/tokenizer.rs:78-104 | the eighteen rows in the source's order; what each row matches is described by `FirstMatchShape`, `FirstMatchAt` and the row lemmas below |
| Tokenizing.FirstMatchFrom | src/parser/tokenizer.rs:172-191 | no match only when every row fails; otherwise the match comes from a row whose earlier rows all fail |
| Tokenizing.FirstMatch | src/parser/tokenizer.rs:172-191 | the first row of `Table` whose test succeeds, from row 0 on, as `FirstMatchFrom` states |
| Tokenizing.FirstMatchShape | src/parser/tokenizer.rs:78-104 | a winning match is a non-empty prefix and a lexeme of its kind, and `Eoi` never wins |
| Tokenizing.Advance | src/parser/tokenizer.rs:177-181 | a newline moves one cursor step to column 0 of the next line; other kinds move the cursor by the match length, and kinds other than block comments move it by columns on the same line |
| Tokenizing.NextToken | src/parser/tokenizer.rs:165-201 | never aborts; fails exactly when no row matches, carrying the unconsumed rest and leaving the position; otherwise the token is the first match, its span runs from the old to the new position, and the cursor moves forward without passing the end |
| Tokenizing.Run | src/parser/tokenizer.rs:119-163 | the final cursor lies between the start and the end of the source, and the line never decreases |
| Tokenizing.Tokenized | src/parser/tokenizer.rs:119-163 | `tokenize` from the start position; its properties are those of `TokenizeSuccess`, `TokenizeShape`, `TokenizeWellFormed` and `TokenizeFailure` |
| Tokenizing.Tokenizer.HasReachedEndOfSource | src/parser/tokenizer.rs:203-205 | true exactly when the cursor is at or past the end of the source; `Tokenize`'s loop runs while it is false |
| Tokenizing.Tokenizer.constructor | src/parser/tokenizer.rs:76-109 | starts at the start position with no source and the given comment flag |
| Tokenizing.Tokenizer.Reset | src/parser/tokenizer.rs:113-116 | back to the start position with no source |
| Tokenizing.Tokenizer.GetToken | src/parser/tokenizer.rs:165-201 | returns the token and the new position that `NextToken` gives from the old position |
| Tokenizing.Tokenizer.Tokenize | src/parser/tokenizer.rs:119-163 | returns the token list and the final position that `Run` gives from the start position |
| TokenizerProperties.RawScan | src/parser/tokenizer.rs:125-126 | the scan stops between the start and the end of the source; it is stuck exactly when it stops short of the end; its tokens chain from one position to the next |
| TokenizerProperties.ScanStuck | src/parser/tokenizer.rs:193-200 | a scan stops short of the end only where no row matches |
| TokenizerProperties.ScanRecognized | src/parser/tokenizer.rs:172-187 | every scanned token is the first match at its start, with the span `Advance` gives |
| TokenizerProperties.RunIsFilteredScan | src/parser/tokenizer.rs:125-143 | the tokenize loop equals the raw scan with layout tokens dropped and comments dropped or rejected |
| TokenizerProperties.RecognizedFacts | src/parser/tokenizer.rs:172-187 | a recognized token moves the cursor forward; its raw text is a prefix of the rest; except for a `\n\r` newline, the raw text is exactly the source between its ends; kinds other than newline and block comment end `|raw|` columns further on the same line |
| TokenizerProperties.Significant | src/parser/tokenizer.rs:131-142 | the filtered list contains no newline, whitespace or comment token |
| TokenizerProperties.SignificantInOrder | src/parser/tokenizer.rs:131-142 | filtering keeps tokens in source order |
| TokenizerProperties.TokenizeSuccess | src/parser/tokenizer.rs:119-163 | on success the scan consumed the whole source, no comment was seen when comments are off, and the list is the significant tokens followed by `Eoi` at the final position |
| TokenizerProperties.TokenizeShape | src/parser/tokenizer.rs:131-158 | on success the last token is `Eoi` at the end of the source, and no layout or comment token remains |
| TokenizerProperties.TokenizeWellFormed | src/parser/tokenizer.rs:119-163 | on success the list ends with its only `Eoi`, every token's raw text is the source between its ends and a lexeme of its kind, and the tokens appear in source order |
| TokenizerProperties.CommentPolicy | src/parser/tokenizer.rs:133-139 | with comments off, any comment gives `Err("comments are not supported")`; without comments the flag makes no difference |
| TokenizerProperties.TokenizeFailure | src/parser/tokenizer.rs:119-201 | tokenizing never aborts; a stuck scan without a rejected comment gives the "unrecognized token" error with the unconsumed rest; every error is either that or the comment error |
| TokenizerProperties.NothingStartsWithCarriageReturn | src/parser/tokenizer.rs:78-104 | no row matches text that starts with `\r` |
| TokenizerProperties.NewLineCarriageReturnStopsScan | src/parser/tokenizer.rs:177-181 | a `\n\r` token is the last one the scan produces, and the scan sticks at the `\r` after it |
| TokenizerProperties.NewLineCarriageReturnFails | src/parser/tokenizer.rs:177-181 | a source whose scan meets a `\n\r` fails to tokenize |
| TokenizerProperties.CarriageReturnExample | src/parser/tokenizer.rs:165-201 | tokenizing `\n\r` fails with the rest `\r` |
| TokenizerProperties.FirstMatchAt | src/parser/tokenizer.rs:172-191 | a row wins when no earlier row can start with the first character |
| TokenizerProperties.PunctuationFirstMatch | src/parser/tokenizer.rs:84-89 | each of `,` `:` `[` `]` `{` `}` becomes its own one-character token |
| TokenizerProperties.NewLineFirstMatch | src/parser/tokenizer.rs:79-80 | `\n\r` is preferred to `\n` |
| TokenizerProperties.DecimalBeforeInteger | src/parser/tokenizer.rs:99-100 | digits, a point and digits form one decimal number token, though the integer row alone would match only the leading digits |
| TokenizerProperties.KeywordFirstMatch | src/parser/tokenizer.rs:92-98 | `null`, `false` and `true` match when no word character follows |
| TokenizerProperties.KeywordNeedsBoundary | src/parser/tokenizer.rs:92 | `nullx` matches no row |
| TokenizerProperties.KeywordMatchHasBoundary | src/parser/tokenizer.rs:92-98 | a `null`, `false` or `true` match is never followed by a word character |
| TokenizerProperties.QuotedFirstMatch | src/parser/tokenizer.rs:102 | a double quote, any text without a double quote and a closing double quote form one string token |
| TokenizerProperties.RecognizedFirstMatch | src/parser/tokenizer.rs:172-191 | a punctuation character or a double-quoted string at the cursor is what the table finds there, and it is kept in the list |
| TokenizerProperties.RunLexes | src/parser/tokenizer.rs:119-163 | on a source made only of such tokens the loop returns them in order, followed by `Eoi` where they end |
| TokenizerProperties.LeadingCommaLexes | src/parser/tokenizer.rs:84-89 | `[,]` is the tokens `[`, `,` and `]` |
| TokenizerProperties.MissingValueLexes | src/parser/tokenizer.rs:84-102 | `{"a":}` is the tokens `{`, a string, `:` and `}` |
| TokenizerProperties.AdvanceAsIntended | src/parser/tokenizer.rs:177-181 | reference advance past the whole match: the cursor moves by its length, and the line and column follow its line breaks |
| TokenizerProperties.AdvanceAsIntendedAgrees | src/parser/tokenizer.rs:177-181 | the reference advance agrees with `Advance` for single-line tokens and for `\n`, and for `\n\r` it is one cursor step ahead |
| Parsing.TokenAt | src/parser.rs:178-188 | the token at the index, or the `expect` abort past the end |
| Parsing.Consumed | src/parser.rs:193-213 | succeeds exactly when the current token has the kind, returning it and advancing by one; a kind mismatch gives the "unexpected token: found …, expected …" error and leaves the index unchanged; only an index past the end aborts |
| Parsing.SourceSlice | src/parser.rs:127 | the source between two cursors when they are in order and in range; otherwise a slicing abort |
| Parsing.DecodeNumber | src/parser.rs:143-155 | never an error; a literal with a point is a float that keeps its text; a non-empty all-digit literal decodes to its decimal value, and aborts with the `expect` message exactly when that value exceeds `i64::MAX` |
| Parsing.DecodeBoolean | src/parser.rs:157-169 | decodes exactly `true` and `false`, and the value is true exactly for `true` |
| Parsing.StringContent | src/parser.rs:131-141 | the text between the first and last characters, for literals of length at least two |
| Parsing.ParsedNull | src/parser.rs:171-176 | succeeds exactly on a null token, with a node holding its span and text, one token on; any other token is the `consume` error with the index unchanged |
| Parsing.ParsedBoolean | src/parser.rs:157-169 | succeeds exactly on a boolean token whose text is `true` or `false`, with the value true exactly for `true`; another kind is the `consume` error; other boolean text aborts with the `expect` message |
| Parsing.ParsedNumber | src/parser.rs:143-155 | succeeds exactly on a number token that decodes, and the node holds the decoded value, the span and the text; another kind is the `consume` error; a decoding failure aborts with the `expect` message |
| Parsing.ParsedString | src/parser.rs:131-141 | succeeds exactly on a string token of at least two characters, and the value is the text without its first and last characters; another kind is the `consume` error; a shorter text aborts on the slice |
| Parsing.ConsumeStaysInside | src/parser.rs:193-213 | on a list ending in `Eoi`, consuming any other kind never aborts and leaves the index inside the list |
| Parsing.NullFacts | src/parser.rs:171-176 | a null leaf is well formed, spans its token and never aborts |
| Parsing.BooleanFacts | src/parser.rs:157-169 | a boolean leaf is well formed, its value is `raw == "true"`, and it never aborts |
| Parsing.NumberFacts | src/parser.rs:143-155 | a number leaf is well formed and spans its token; on a number token it aborts exactly when the literal is all digits, has no point and exceeds `i64::MAX`, and only with the `expect` message |
| Parsing.StringFacts | src/parser.rs:131-141 | a string leaf is well formed, its value is the raw text without its quotes, and it never aborts |
| Parsing.ParsedRoot | src/parser.rs:54-61 | a success is an array or an object; an empty list aborts in `current`; a first token other than `[` or `{` gives the root error; otherwise the outcome and the index are those of the array or object literal |
| Parsing.ParseSource | src/parser.rs:47-62 | a success is an array or an object, as the comment at src/parser.rs:45-46 promises; a tokenizer error or abort comes back unchanged |
| Parsing.ParsedValue | src/parser.rs:64-75 | the index never goes back or past the list, and a success consumes at least one token |
| Parsing.ParsedArray | src/parser.rs:106-129 | the index never goes back or past the list, and a success consumes at least one token |
| Parsing.ParsedElements | src/parser.rs:111-120 | the element loop never moves the index back or past the list |
| Parsing.ParsedObject | src/parser.rs:77-104 | the index never goes back or past the list, and a success consumes at least one token |
| Parsing.ParsedMembers | src/parser.rs:82-95 | the member loop never moves the index back or past the list |
| Parsing.ToMapKeys | src/parser.rs:91 | the object's key set is exactly the set of keys parsed |
| Parsing.ToMapLastWins | src/parser.rs:91 | the value under a key is the one from its last occurrence |
| Parsing.ToMapValues | src/parser.rs:91 | every value in the map comes from an entry with that key |
| Parsing.ValueFacts | src/parser.rs:64-75 | on well-formed tokens a value leaves the index inside the list, aborts only on a punctuation token or an oversized integer, and builds a well-formed node spanning the tokens it consumed |
| Parsing.ArrayFacts | src/parser.rs:106-129 | an array spans from its `[` to its `]`, its raw text is that slice of the source, and its elements are well formed, inside it and in source order |
| Parsing.ElementsFacts | src/parser.rs:111-120 | the element loop stops at `]` or `Eoi`, with the elements well formed and in source order |
| Parsing.ObjectFacts | src/parser.rs:77-104 | an object spans from its `{` to its `}`, its raw text is that slice of the source, and its values are well formed and inside it |
| Parsing.MembersFacts | src/parser.rs:82-95 | the member loop stops at `}` or `Eoi`, with every value well formed |
| Parsing.RootFacts | src/parser.rs:54-61 | a successful root is an array or an object and is well formed; a first token other than `[` or `{` gives the root error |
| Parsing.ParseSourceFacts | src/parser.rs:47-62 | a successful parse is a well-formed array or object; a tokenizer error comes back unchanged; a first token other than `[` or `{`, including a bare `null`, gives the root error; the only aborts are the value panic and the number `expect` |
| Parsing.ValuePanicsOnPunctuation | src/parser.rs:73 | a value position holding `,` `:` `]` `}` or `Eoi` aborts with the `parse_value` panic |
| Parsing.LeadingCommaPanics | src/parser.rs:73 | `[,` aborts with the `parse_value` panic |
| Parsing.MissingValuePanics | src/parser.rs:73 | a key and a colon followed by `}` abort with the `parse_value` panic |
| Parsing.LeadingCommaRootPanics | src/parser.rs:73 | a token list that begins `[` `,` aborts the whole parse with the `parse_value` panic |
| Parsing.MissingValueRootPanics | src/parser.rs:73 | a token list that begins `{`, a string, `:` and `}` aborts the whole parse with the `parse_value` panic |
| Parsing.LeadingCommaText | src/parser.rs:73 | any source whose text is `[,]` aborts with the `parse_value` panic, with or without comments |
| Parsing.LeadingCommaExample | src/parser.rs:73 | `parse("[,]")` aborts with the `parse_value` panic instead of returning an error |
| Parsing.MissingValueText | src/parser.rs:73 | any source whose text is `{"a":}` aborts with the `parse_value` panic, with or without comments |
| Parsing.MissingValueExample | src/parser.rs:73 | `parse("{\"a\":}")` aborts with the `parse_value` panic instead of returning an error |
| Parsing.TrailingCommaAccepted | src/parser.rs:117-119 | after an element, `]` ends the loop, `,` followed by `]` is accepted, and anything else is the error expecting a comma |
| Parsing.TrailingCommaAcceptedInObject | src/parser.rs:92-94 | after a member, `}` ends the loop, `,` followed by `}` is accepted, and anything else is the error expecting a comma |
| Parsing.MissingCloseBracket | src/parser.rs:122 | an element loop that stops at `Eoi` gives the error expecting `]` |
| Parsing.MissingCloseBrace | src/parser.rs:97 | a member loop that stops at `Eoi` gives the error expecting `}` |
| Parsing.MissingColon | src/parser.rs:88 | a key not followed by `:` gives the error expecting `Colon`, at the token after the key |
| Parsing.KeyMustBeString | src/parser.rs:87 | a member that does not start with a string literal gives the error expecting `StringLiteral` |
| Parsing.Parser.constructor | src/parser.rs:22-29 | a fresh tokenizer with the given comment flag, no tokens, index 0 and no source |
| Parsing.Parser.NewWithoutComments | src/parser.rs:31-33 | a parser whose tokenizer rejects comments |
| Parsing.Parser.NewWithComments | src/parser.rs:35-37 | a parser whose tokenizer skips comments |
| Parsing.Parser.Reset | src/parser.rs:39-43 | no tokens, index 0 and no source |
| Parsing.Parser.Peek | src/parser.rs:178-184 | the token `offset` places ahead, or the `expect` abort past the end |
| Parsing.Parser.Current | src/parser.rs:186-188 | the token at the index, or the abort past the end |
| Parsing.Parser.Consume | src/parser.rs:193-213 | result and new index are those of `Consumed` |
| Parsing.Parser.ParseNullLiteral | src/parser.rs:171-176 | result and new index are those of `ParsedNull` |
| Parsing.Parser.ParseBooleanLiteral | src/parser.rs:157-169 | result and new index are those of `ParsedBoolean` |
| Parsing.Parser.ParseNumberLiteral | src/parser.rs:143-155 | result and new index are those of `ParsedNumber` |
| Parsing.Parser.ParseStringLiteral | src/parser.rs:131-141 | result and new index are those of `ParsedString` |
| Parsing.Parser.ParseValue | src/parser.rs:64-75 | result and new index are those of `ParsedValue` |
| Parsing.Parser.ParseArrayLiteral | src/parser.rs:106-129 | result and new index are those of `ParsedArray`; the `while` loop's invariant is that `ParsedElements` resumed at the current index with the elements pushed so far gives the same outcome as from the first element |
| Parsing.Parser.ParseObjectLiteral | src/parser.rs:77-104 | result and new index are those of `ParsedObject` |
| Parsing.Parser.ParseMembers | src/parser.rs:79-95 | the `while` loop's map is the map of the entries `ParsedMembers` collects, and the index is where that loop stops |
| Parsing.Parser.ParseMember | src/parser.rs:87-91 | one key, colon and value, as `ParsedMember` describes them |
| Parsing.Parser.SkipMemberSeparator | src/parser.rs:92-94 | the optional comma after a member, as `AfterMember` describes it |
| Parsing.Parser.CloseObject | src/parser.rs:97-103 | the closing `}` and the object node, as `ParsedObject` describes them |
| Parsing.Parser.Parse | src/parser.rs:47-62 | the result is `ParseSource` of the source with the tokenizer's comment flag; after a successful tokenize the token list is the tokenizer's output and the index is where the root parse stopped; after a tokenizer error the list is empty and the index 0 |

## Left out

- The `println!` of the token list (src/parser/tokenizer.rs:160) is output only and is not modelled.
- The `regex` crate is not modelled. Each pattern is a hand-written prefix recognizer. `\d` is an ASCII digit, and `\b` is a boundary between an ASCII word character and anything else. The real crate is Unicode-aware for both.
- Lengths count characters, not UTF-8 bytes. Rust's `len()` and slicing count bytes, so the model agrees with the source on ASCII text only.
- `usize` overflow of the cursor, line and column is not modelled; the fields are unbounded naturals.
- Parsing.DecodeNumber: `f64` is not modelled. A literal with a point becomes `Float` holding the literal's text. The `FromStr` implementation behind `parse().expect` (src/parser.rs:148-151) is not part of this model. Its behaviour on integers is taken to be `i64` parsing: a value beyond `i64::MAX` aborts with the `expect` message.
- The wording of Rust's own slicing panics is not modelled. The model uses a fixed message, and on well-formed tokens such a panic is proved never to happen.
- `HashMap` iteration order is not modelled: an object's value is a Dafny `map`.
- Lifetimes and borrowing are not modelled. The parser's `source` is an `Option<string>` holding a copy.
- Position: Rust updates it in place through `&mut self`. Here it is a value datatype whose mutators return the new position. That agrees with the source, because the source copies `Position` by value everywhere it is stored. Aliasing of a position is not modelled.
- The object loop body of `parse_object_literal` is split into `ParseMember`, `SkipMemberSeparator` and `CloseObject`. Their order of effects is the source's own.
- Tokens after the root value are ignored, as in the source. `parse` does not check that the root ends at `Eoi`.
- The unit test at src/parser.rs:221-236 expects a bare `null` to parse, with end position `(5,1,5)`. Both expectations contradict the code, which rejects a non-composite root and advances `null` to `(4,1,4)`, so it is not used as a specification.
- `src/main.rs` and `src/bin/split/main.rs` use a hard-coded input, `println!` and `process::exit`. They are not part of this model.
