/**
 * Whole inputs, each showing one way the program departs from a strict JSON parser.
 */
module Scenarios {
  import opened Tokens
  import opened Lexing
  import opened Parsing

  /** A keyword that runs to the end of the input loses its last byte: `true` alone is
      reported as the keyword `tru`, not as an invalid start. */
  lemma KeywordAtEnd()
    ensures ParseText("true") == Err(UnexpectedKeyword("tru"))
  {
  }

  /** A comma directly before the closing bracket is accepted. */
  lemma TrailingComma()
    ensures ParseText("[1,]") == Ok(JArray([JNumber("1")]))
  {
    var input := "[1,]";
    var open := PState(Token(TokenLeftBracket, "["), 1);
    var one := PState(Token(TokenNumber, "1"), 2);
    var comma := PState(Token(TokenComma, ","), 3);
    var close := PState(Token(TokenRightBracket, "]"), 4);
    var end := PState(Token(TokenEOF, ""), 4);
    assert Lex(input, 0) == Ok(open);
    assert Span(input, 1, Space) == 1;
    NumberTokenIs(input, 1, 2);
    assert input[1..2] == "1";
    assert Lex(input, 1) == Ok(one);
    assert Lex(input, 2) == Ok(comma);
    assert Lex(input, 3) == Ok(close);
    assert Lex(input, 4) == Ok(end);
    assert ParseValueS(input, one) == Ok((JNumber("1"), comma));
    assert [] + [JNumber("1")] == [JNumber("1")];
    assert ElementsS(input, close, [JNumber("1")]) == Ok(([JNumber("1")], close));
    assert ElementsS(input, one, []) == Ok(([JNumber("1")], close));
  }

  /** Tokens after the document are not checked... */
  lemma TrailingContent()
    ensures ParseText("[]]") == Ok(JArray([]))
  {
  }

  /** ...but the one token after it is still read, and a keyword there can fail. */
  lemma TrailingKeyword()
    ensures ParseText("[]x") == Err(UnexpectedKeyword(""))
  {
  }
}
