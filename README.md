# A verified model of a hand-written Go JSON lexer and parser

The program is a single Go file, `main.go`. It has two parts:

- a byte-level **lexer**. It keeps a cursor (`pos`, and `current`, the byte before `pos`, or 0 once the input is exhausted). It skips whitespace and then produces one token per call: the six punctuation tokens, strings, numbers, the keywords `true` / `false` / `null`, and end of input.
- a **recursive-descent parser** with one token of lookahead. The top level must be an object or an array. It builds a Go map for each object and a slice for each array. Every error is a `panic`.

The Dafny project models both parts in the imperative form the Go code has. Each is also given a functional specification, and the properties are proved about that specification.

- `tokens.dfy` (module `Tokens`): the token kinds, the token record, one `Error` constructor per `panic` message, and a `Result` type.
- `lexer.dfy` (module `Lexing`): the byte classes; `Span`, the generic scan-while loop; the scans `ScanString`, `ScanNumber` and `ScanKeyword`; and `NextTok`, which is `nextToken` as a function of the cursor index.
  - It also holds lemmas stating each scan's token by the bytes of the input alone.
  - The class `Lexer` has the fields `input`, `pos` and `current`, plus a ghost index. Its methods `Advance`, `SkipWhitespace`, `NextToken`, `ReadString`, `ReadNumber` and `ReadKeyword` keep the loops of the Go code. Each is proved to compute the specification function.
- `parser.dfy` (module `Parsing`): the value type `Json` and the parser state `PState` (lookahead token, cursor index).
  - The specification functions `ParseValueS`, `ParseObjectS`, `MemberS`, `MembersS`, `ParseArrayS`, `ElementsS`, `ParseJSONS` and `ParseText` follow the Go methods step for step.
  - The class `Parser` has the methods `NextToken`, `ParseJSON`, `ParseObject`, `ParseMember`, `ParseArray` and `ParseValue`, with the Go code's loops and mutual recursion. Each is proved to agree with its specification function.
  - An object is the map built by applying `obj[key] = value` in order (`FromPairs`), so the last occurrence of a key wins.
- `grammar.dfy` (module `Grammar`): the parser's partner. A document `Doc` is written down as a token sequence (`Toks`). The main result: whenever the lexer yields exactly those tokens, the parser returns the value the document denotes (`Meaning`) and stops on the token after them. Whitespace between tokens plays no part, and neither does what follows the document, provided the one token after its closer lexes without error.
- `properties.dfy` (module `Properties`):
  - each error path of the grammar and the token that triggers it;
  - the accepted trailing commas;
  - where the parser stops after a container;
  - end of input;
  - last-wins;
  - element order.
- `scenarios.dfy` (module `Scenarios`): whole inputs, evaluated by the model, that show where the program departs from a strict JSON parser.

Where the code and a strict JSON design differ, the model follows the code:

- strings are copied verbatim, with no escape processing;
- an unterminated string is not an error; it simply ends at the end of input;
- a number is any run of digits, `.` and `-`;
- a comma directly before `}` or `]` is accepted;
- content after the top-level value is never checked, except that one more token is read after the closing bracket, and a bad keyword there is an error;
- when a number or keyword runs to the very end of the input, `advance` stops moving `pos`, so the slice at `main.go:111` / `main.go:120` drops the last byte. `true` alone is therefore reported as the keyword `tru`.

Input bytes are Dafny `char`s with values 0..255. `unicode.IsSpace`, `IsDigit` and `IsLetter` are written out as Go's tables restricted to those values.

## Model

| member | source | states |
|---|---|---|
| Lexing.Succ | main.go:43-50 | advance moves the cursor by one while input remains, and never past the end |
| Lexing.Span | main.go:52-56 | a scan-while loop stops inside the input, on the first byte (or the 0 of end of input) outside the scanned class |
| Lexing.SpanAll | main.go:53-55 | every byte a scan passes over belongs to the scanned class |
| Lexing.SpanIs | main.go:53-55 | where a scan stops is determined by the bytes: the first byte outside the class |
| Lexing.Classify | main.go:122-128 | a letter run is a token exactly when it is true, false or null; true/false are Boolean and null is Null, with the run as value; any other run is the "Unexpected keyword" error carrying the run |
| Lexing.ScanString | main.go:93-104 | a string token's text never holds a quote or a zero byte, and the scan consumes at least the opening quote |
| Lexing.ScanNumber | main.go:106-113 | a number token consists only of digits, `.` and `-`, and consumes at least its first byte |
| Lexing.ScanKeyword | main.go:115-129 | a keyword scan consumes at least its first letter, and yields a Boolean or Null token or the keyword error |
| Lexing.NextTok | main.go:58-91 | after skipping whitespace, each punctuation byte gives its own token with that byte as value and consumes one byte; TokenEOF exactly when the byte starts no token, consuming nothing; an error only on a letter |
| Lexing.StringTokenIs | main.go:93-104 | a string token is exactly the bytes after the quote up to the next quote, zero byte or end of input, copied verbatim; a closing quote is consumed |
| Lexing.NumberTokenIs | main.go:106-113 | when a byte follows the run, a number token is exactly the maximal run of digits, `.` and `-` |
| Lexing.NumberTokenAtEnd | main.go:106-113 | when the run reaches the end of input, the token drops the run's last byte |
| Lexing.KeywordTokenIs | main.go:115-121 | when a byte follows the run, the keyword classified is exactly the maximal letter run |
| Lexing.KeywordTokenAtEnd | main.go:115-121 | when the run reaches the end of input, the classified word drops the run's last byte |
| Lexing.Lexer.constructor | main.go:37-41 | NewLexer puts the cursor on the first byte |
| Lexing.Lexer.Advance | main.go:43-50 | current becomes input[pos] and pos grows by one while input remains, otherwise current becomes 0 and pos stays; pos <= len(input) is kept |
| Lexing.Lexer.SkipWhitespace | main.go:52-56 | the cursor moves to the end of the whitespace run |
| Lexing.Lexer.NextToken | main.go:58-91 | the token and the new cursor are those of NextTok |
| Lexing.Lexer.ReadString | main.go:93-104 | the builder loop yields ScanString's token and cursor |
| Lexing.Lexer.ReadNumber | main.go:106-113 | the loop and slice yield ScanNumber's token and cursor |
| Lexing.Lexer.ReadKeyword | main.go:115-129 | the loop, slice and switch yield ScanKeyword's result and cursor |
| Parsing.Lex | main.go:142-144 | nextToken never moves the cursor back, and the termination measure does not grow |
| Parsing.FromPairsLastWins | main.go:158-174 | a key is in the object exactly when some member has it, and it is sent to the value of the last member that has it |
| Parsing.ParseValueS | main.go:205-229 | succeeds only on a value-starting token and consumes at least one token; any other lookahead is the "Unexpected token" error with that token's text |
| Parsing.ParseObjectS | main.go:157-185 | on success yields an object and consumes at least one token |
| Parsing.MemberS | main.go:162-173 | a member starts with a string key, and the key of the pair is that token's text; a non-string lookahead is the missing-key error |
| Parsing.MembersS | main.go:161-181 | on success the loop ends on `}` and the pairs extend those read so far; a lookahead that is neither `}` nor a string is the missing-key error |
| Parsing.ParseArrayS | main.go:187-203 | on success yields an array and consumes at least one token |
| Parsing.ElementsS | main.go:191-199 | on success the loop ends on `]` and the elements extend those read so far |
| Parsing.ParseJSONS | main.go:146-155 | succeeds only on `{` (giving an object) or `[` (giving an array); any other first token is the invalid-start error |
| Parsing.ParseText | main.go:240-243 | a whole input parses, if at all, to an object or an array |
| Parsing.Parser.constructor | main.go:137 | the parser holds the lexer, and the lookahead starts as Go's zero token |
| Parsing.Parser.NextToken | main.go:142-144 | the lookahead and cursor become Lex's result, or the lexer's error is returned |
| Parsing.Parser.ParseJSON | main.go:146-155 | returns ParseJSONS of the state on entry |
| Parsing.Parser.ParseObject | main.go:157-185 | the map loop returns ParseObjectS's result and leaves the parser in its final state |
| Parsing.Parser.ParseMember | main.go:162-173 | the key, colon and value steps return MemberS's result and leave the parser in its final state |
| Parsing.Parser.ParseArray | main.go:187-203 | the append loop returns ParseArrayS's result and leaves the parser in its final state |
| Parsing.Parser.ParseValue | main.go:205-229 | returns ParseValueS's result and leaves the parser in its final state |
| Parsing.NewParser | main.go:136-140 | a fresh parser on the lexer whose lookahead is the first token, or the lexer's error |
| Parsing.ParseDocument | main.go:240-243 | NewLexer, NewParser and parseJSON on an input return ParseText of it |
| Grammar.ValueParses | main.go:205-229 | on the tokens of any document, parseValue returns the document's meaning and stops on the token after them |
| Grammar.ObjectParses | main.go:157-185 | on the tokens of an object document, parseObject returns the map of its members' pairs, last one winning |
| Grammar.ArrayParses | main.go:187-203 | on the tokens of an array document, parseArray returns the meanings of its items in order |
| Grammar.MembersParse | main.go:161-181 | parseObject's loop over the tokens of a list of members reads exactly their pairs, in order, and stops on the `}` |
| Grammar.ItemsParse | main.go:191-199 | parseArray's loop over the tokens of a list of items reads exactly their meanings, in order, and stops on the `]` |
| Grammar.DocumentParses | main.go:146-155 | an input whose tokens are those of an object or array document parses to its meaning, whatever follows, provided the one token after the closer lexes without error |
| Properties.EofSticky | main.go:82-90 | once nextToken answers TokenEOF it keeps answering it from the same place |
| Properties.BlankInput | main.go:146-155 | an empty or all-whitespace input is the invalid-start error |
| Properties.ScalarStart | main.go:146-155 | a document starting with a scalar token is the invalid-start error |
| Properties.EofInMember | main.go:166-173 | end of input after a key is the missing-colon error, and after the colon the unexpected-token error |
| Properties.EofAtObjectHead | main.go:161-163 | end of input where a key or `}` is expected is the missing-key error |
| Properties.EofAtArrayHead | main.go:191-192 | end of input where a value or `]` is expected is the unexpected-token error |
| Properties.MissingColon | main.go:166-170 | a key not followed by `:` is the missing-colon error |
| Properties.BadObjectSeparator | main.go:176-180 | after a member, a token other than `,` or `}` is the object-separator error |
| Properties.ObjectTrailingComma | main.go:176-181 | a comma directly followed by `}` ends the object normally |
| Properties.ObjectSuccess | main.go:157-185 | a successful parseObject read members up to a `}` and its lookahead is the token after that `}` |
| Properties.BadArraySeparator | main.go:194-198 | after an element, a token other than `,` or `]` is the array-separator error |
| Properties.ArrayTrailingComma | main.go:194-199 | a comma directly followed by `]` ends the array normally |
| Properties.ArraySuccess | main.go:187-203 | a successful parseArray read elements up to a `]` and its lookahead is the token after that `]` |
| Properties.ScalarValue | main.go:207-221 | a string token gives its text, a number its lexeme, a boolean true exactly when its text is "true", null gives null; each consumes one token |
| Properties.BooleanText | main.go:122-124 | a boolean token's text is "true" or "false" |
| Properties.MembersLastWins | main.go:174 | an object document's keys are the keys written, each sent to the value of its last occurrence |
| Properties.ObjectLastWins | main.go:157-185 | the object parsed from an object document has exactly the written keys, each sent to its last occurrence's value |
| Properties.ArrayInOrder | main.go:187-203 | the array parsed from an array document has one element per item, in the order written |
| Scenarios.KeywordAtEnd | main.go:115-128 | the input `true` is the keyword error for `tru` |
| Scenarios.TrailingComma | main.go:194-199 | the input `[1,]` is the array holding the number `1` |
| Scenarios.TrailingContent | main.go:146-155 | the input `[]]` is the empty array: what follows the document is not checked |
| Scenarios.TrailingKeyword | main.go:201 | the input `[]x` is the keyword error: the one token after the document is still read |

## Left out

- `main()` and `fmt.Println` (main.go:231-245): demonstration I/O. `ParseDocument` is the part of `main` that drives the parser.
- `strconv.ParseFloat` (main.go:212): floating point is not modelled. A number value is its lexeme (`JNumber(lexeme)`), and the ignored conversion error has no effect on the model.
- `sb.WriteRune` (main.go:98) re-encodes bytes 0x80..0xFF as two-byte UTF-8. The model copies each byte as one character, which is exact for ASCII input.
- `unicode.IsSpace`, `IsDigit` and `IsLetter` are modelled on the values 0..255 only, the values `rune(l.input[l.pos])` can take.
- Go map iteration order and printing are not modelled. An object is a Dafny `map`.
- `panic` is modelled as an `Err` result. Unwinding and process termination are not.
- Grammar.ValueParses: the round trip is stated on tokens. Any input whose lexer output is the document's tokens is covered, but the model does not contain a function that prints a document as text.
- Within `parseObject`, the key, colon and value steps are a separate method, `Parser.ParseMember`, which `ParseObject` calls once per pass of its loop. Where the Go code panics in those steps, `ParseMember` returns the error.
- Recursion depth: Go's recursion through `parseValue` ends in a fatal stack-overflow error on very deeply nested input. The model's recursion has no depth bound, so that failure is not modelled.
