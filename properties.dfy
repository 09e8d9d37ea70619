/**
 * What the parser does on the inputs its grammar rejects or bends: each panic and the
 * token that causes it, the trailing commas it accepts, where it stops after a
 * container, and the end-of-input cases.
 */
module Properties {
  import opened Tokens
  import opened Lexing
  import opened Parsing
  import opened Grammar

  // ---------------------------------------------------------------------------
  // The end of input.
  // ---------------------------------------------------------------------------

  /** Once nextToken answers TokenEOF it answers TokenEOF again, from the same place:
      input after the point where the lexer stops is never read. */
  lemma EofSticky(input: string, i: nat)
    requires i <= |input| && NextTok(input, i).0 == Ok(Token(TokenEOF, ""))
    ensures NextTok(input, NextTok(input, i).1) == NextTok(input, i)
  {
    var j := Span(input, i, Space);
    SpanIs(input, j, j, Space);
  }

  /** An input of whitespace only, the empty input included, is not a document. */
  lemma {:induction false} BlankInput(input: string)
    requires forall m :: 0 <= m < |input| ==> IsSpace(input[m])
    ensures ParseText(input) == Err(InvalidStart)
  {
    SpanIs(input, 0, |input|, Space);
  }

  /** A document cannot start with a scalar: the first token must be `{` or `[`. */
  lemma ScalarStart(input: string, st: PState)
    requires st.at <= |input| && IsValueStart(st.tok.kind)
    requires st.tok.kind != TokenLeftBrace && st.tok.kind != TokenLeftBracket
    ensures ParseJSONS(input, st) == Err(InvalidStart)
  {
  }

  /** TokenEOF where an object expects the colon or the value of a member is an error
      (after the value, BadObjectSeparator applies). */
  lemma EofInMember(input: string, st: PState, acc: seq<(string, Json)>, s1: PState, s2: PState)
    requires st.at <= |input| && st.tok.kind == TokenString && Lex(input, st.at) == Ok(s1)
    ensures s1.tok.kind == TokenEOF ==> MembersS(input, st, acc) == Err(ExpectedColon)
    ensures s1.tok.kind == TokenColon && Lex(input, s1.at) == Ok(s2) && s2.tok.kind == TokenEOF ==>
              MembersS(input, st, acc) == Err(UnexpectedToken(s2.tok.value))
  {
  }

  /** TokenEOF at the head of parseObject's loop is the missing-key error. */
  lemma EofAtObjectHead(input: string, st: PState, acc: seq<(string, Json)>)
    requires st.at <= |input| && st.tok.kind == TokenEOF
    ensures MembersS(input, st, acc) == Err(ExpectedKey)
  {
  }

  /** TokenEOF at the head of parseArray's loop is the unexpected-token error. */
  lemma EofAtArrayHead(input: string, st: PState, acc: seq<Json>)
    requires st.at <= |input| && st.tok.kind == TokenEOF
    ensures ElementsS(input, st, acc) == Err(UnexpectedToken(st.tok.value))
  {
  }

  // ---------------------------------------------------------------------------
  // Inside an object.
  // ---------------------------------------------------------------------------

  /** A key not followed by `:` is the missing-colon error. */
  lemma MissingColon(input: string, st: PState, acc: seq<(string, Json)>, s1: PState)
    requires st.at <= |input| && st.tok.kind == TokenString
    requires Lex(input, st.at) == Ok(s1) && s1.tok.kind != TokenColon
    ensures MemberS(input, st) == Err(ExpectedColon)
    ensures MembersS(input, st, acc) == Err(ExpectedColon)
  {
  }

  /** After a member, a token other than `,` or `}` is the object-separator error. */
  lemma BadObjectSeparator(input: string, st: PState, acc: seq<(string, Json)>,
                           p: (string, Json), after: PState)
    requires st.at <= |input| && MemberS(input, st) == Ok((p, after))
    requires after.tok.kind != TokenComma && after.tok.kind != TokenRightBrace
    ensures MembersS(input, st, acc) == Err(ExpectedCommaOrBrace)
  {
  }

  /** A comma directly followed by `}` closes the object: the trailing comma is accepted. */
  lemma ObjectTrailingComma(input: string, st: PState, acc: seq<(string, Json)>,
                            p: (string, Json), after: PState, close: PState)
    requires st.at <= |input| && MemberS(input, st) == Ok((p, after))
    requires after.tok.kind == TokenComma && Lex(input, after.at) == Ok(close)
    requires close.tok.kind == TokenRightBrace
    ensures MembersS(input, st, acc) == Ok((acc + [p], close))
  {
  }

  /** A successful parseObject read a `{`, then members up to a `}`, and its lookahead is
      the token after that `}`; the object is the members' pairs, the last one of a key
      winning. */
  lemma ObjectSuccess(input: string, st: PState)
    requires st.at <= |input| && st.tok.kind == TokenLeftBrace && ParseObjectS(input, st).Ok?
    ensures Lex(input, st.at).Ok?
    ensures var ms := MembersS(input, Lex(input, st.at).value, []);
            ms.Ok? && ms.value.1.tok.kind == TokenRightBrace &&
            ParseObjectS(input, st) == Ok((JObject(FromPairs(ms.value.0)), Lex(input, ms.value.1.at).value))
  {
    ObjectFromMembers(input, st, Lex(input, st.at).value);
  }

  // ---------------------------------------------------------------------------
  // Inside an array.
  // ---------------------------------------------------------------------------

  /** After an element, a token other than `,` or `]` is the array-separator error. */
  lemma BadArraySeparator(input: string, st: PState, acc: seq<Json>, v: Json, after: PState)
    requires st.at <= |input| && st.tok.kind != TokenRightBracket
    requires ParseValueS(input, st) == Ok((v, after))
    requires after.tok.kind != TokenComma && after.tok.kind != TokenRightBracket
    ensures ElementsS(input, st, acc) == Err(ExpectedCommaOrBracket)
  {
  }

  /** A comma directly followed by `]` closes the array: the trailing comma is accepted. */
  lemma ArrayTrailingComma(input: string, st: PState, acc: seq<Json>, v: Json, after: PState, close: PState)
    requires st.at <= |input| && st.tok.kind != TokenRightBracket
    requires ParseValueS(input, st) == Ok((v, after))
    requires after.tok.kind == TokenComma && Lex(input, after.at) == Ok(close)
    requires close.tok.kind == TokenRightBracket
    ensures ElementsS(input, st, acc) == Ok((acc + [v], close))
  {
  }

  /** A successful parseArray read a `[`, then elements up to a `]`, and its lookahead
      is the token after that `]`. */
  lemma ArraySuccess(input: string, st: PState)
    requires st.at <= |input| && st.tok.kind == TokenLeftBracket && ParseArrayS(input, st).Ok?
    ensures Lex(input, st.at).Ok?
    ensures var es := ElementsS(input, Lex(input, st.at).value, []);
            es.Ok? && es.value.1.tok.kind == TokenRightBracket &&
            ParseArrayS(input, st) == Ok((JArray(es.value.0), Lex(input, es.value.1.at).value))
  {
  }

  // ---------------------------------------------------------------------------
  // Scalars.
  // ---------------------------------------------------------------------------

  /** The scalar tokens: a string is its text, a number its lexeme, a boolean is true
      exactly when its text is `true`, and null is null; each consumes one token. */
  lemma ScalarValue(input: string, st: PState, s1: PState)
    requires st.at <= |input| && Lex(input, st.at) == Ok(s1)
    ensures st.tok.kind == TokenString ==> ParseValueS(input, st) == Ok((JString(st.tok.value), s1))
    ensures st.tok.kind == TokenNumber ==> ParseValueS(input, st) == Ok((JNumber(st.tok.value), s1))
    ensures st.tok.kind == TokenBoolean ==>
              ParseValueS(input, st).Ok? && ParseValueS(input, st).value.1 == s1 &&
              (ParseValueS(input, st).value.0 == JBool(true) <==> st.tok.value == "true")
    ensures st.tok.kind == TokenNull ==> ParseValueS(input, st) == Ok((JNull, s1))
  {
  }

  /** A boolean token the lexer produced has the text `true` or `false`. */
  lemma BooleanText(input: string, i: nat)
    requires i <= |input| && NextTok(input, i).0.Ok? && NextTok(input, i).0.value.kind == TokenBoolean
    ensures NextTok(input, i).0.value.value in {"true", "false"}
  {
  }

  // ---------------------------------------------------------------------------
  // Documents: last wins, and order.
  // ---------------------------------------------------------------------------

  /** The pairs of a document's members are its keys and their meanings, in order. */
  lemma {:induction false} MeaningPairsAt(ms: seq<Member>)
    ensures |MeaningPairs(ms)| == |ms|
    ensures forall i :: 0 <= i < |ms| ==> MeaningPairs(ms)[i] == (ms[i].key, Meaning(ms[i].value))
  {
    if ms != [] {
      MeaningPairsAt(ms[1..]);
      assert forall i :: 1 <= i < |ms| ==> MeaningPairs(ms)[i] == MeaningPairs(ms[1..])[i - 1];
    }
  }

  /** The elements of a document's items are their meanings, in order. */
  lemma {:induction false} MeaningItemsAt(items: seq<Doc>)
    ensures |MeaningItems(items)| == |items|
    ensures forall i :: 0 <= i < |items| ==> MeaningItems(items)[i] == Meaning(items[i])
  {
    if items != [] {
      MeaningItemsAt(items[1..]);
      assert forall i :: 1 <= i < |items| ==> MeaningItems(items)[i] == MeaningItems(items[1..])[i - 1];
    }
  }

  /** An object document has exactly the keys its members are written with, and a key
      written more than once is sent to the value of its last occurrence. */
  lemma MembersLastWins(ms: seq<Member>, k: string)
    ensures var fields := FromPairs(MeaningPairs(ms));
            k in fields <==> exists i :: 0 <= i < |ms| && ms[i].key == k
    ensures var fields := FromPairs(MeaningPairs(ms));
            forall i :: 0 <= i < |ms| && ms[i].key == k && (forall j :: i < j < |ms| ==> ms[j].key != k) ==>
              k in fields && fields[k] == Meaning(ms[i].value)
  {
    MeaningPairsAt(ms);
    FromPairsLastWins(MeaningPairs(ms), k);
  }

  /** parseObject on the tokens of an object document: its keys are the keys written, and
      each is sent to the value of its last occurrence. */
  lemma ObjectLastWins(input: string, st: PState, ms: seq<Member>, after: PState, k: string)
    requires Reads(input, st, Toks(DObject(ms)), after)
    ensures ParseValueS(input, st).Ok? && ParseValueS(input, st).value.0.JObject?
    ensures var fields := ParseValueS(input, st).value.0.fields;
            k in fields <==> exists i :: 0 <= i < |ms| && ms[i].key == k
    ensures var fields := ParseValueS(input, st).value.0.fields;
            forall i :: 0 <= i < |ms| && ms[i].key == k && (forall j :: i < j < |ms| ==> ms[j].key != k) ==>
              k in fields && fields[k] == Meaning(ms[i].value)
  {
    ObjectParses(input, st, ms, after);
    MembersLastWins(ms, k);
  }

  /** parseArray on the tokens of an array document: one element per item written, in the
      order written. */
  lemma ArrayInOrder(input: string, st: PState, items: seq<Doc>, after: PState)
    requires Reads(input, st, Toks(DArray(items)), after)
    ensures ParseValueS(input, st).Ok? && ParseValueS(input, st).value.0.JArray?
    ensures var elems := ParseValueS(input, st).value.0.elems;
            |elems| == |items| && forall i :: 0 <= i < |items| ==> elems[i] == Meaning(items[i])
  {
    ArrayParses(input, st, items, after);
    MeaningItemsAt(items);
  }
}
