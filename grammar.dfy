/**
 * The parser's partner: documents, the token sequence that writes each of them down,
 * and the proof that the parser, fed that sequence by the lexer, returns the value the
 * document denotes.
 */
module Grammar {
  import opened Tokens
  import opened Lexing
  import opened Parsing

  /** A JSON document as written: an object keeps its members in order, repeats included. */
  datatype Doc =
    | DString(text: string)
    | DNumber(lexeme: string)
    | DBool(b: bool)
    | DNull
    | DObject(members: seq<Member>)
    | DArray(items: seq<Doc>)

  datatype Member = Member(key: string, value: Doc)

  /** The value a document denotes; an object's repeated keys are resolved in order. */
  function Meaning(d: Doc): Json {
    match d
    case DString(s) => JString(s)
    case DNumber(l) => JNumber(l)
    case DBool(b) => JBool(b)
    case DNull => JNull
    case DObject(ms) => JObject(FromPairs(MeaningPairs(ms)))
    case DArray(items) => JArray(MeaningItems(items))
  }

  function MeaningPairs(ms: seq<Member>): seq<(string, Json)> {
    if ms == [] then [] else [(ms[0].key, Meaning(ms[0].value))] + MeaningPairs(ms[1..])
  }

  function MeaningItems(items: seq<Doc>): seq<Json> {
    if items == [] then [] else [Meaning(items[0])] + MeaningItems(items[1..])
  }

  /** The tokens, as the lexer records them, that write a document down without
      trailing commas. */
  function Toks(d: Doc): (r: seq<Token>)
    ensures |r| >= 1
  {
    match d
    case DString(s) => [Token(TokenString, s)]
    case DNumber(l) => [Token(TokenNumber, l)]
    case DBool(b) => [Token(TokenBoolean, if b then "true" else "false")]
    case DNull => [Token(TokenNull, "null")]
    case DObject(ms) => [Token(TokenLeftBrace, "{")] + MemberToks(ms) + [Token(TokenRightBrace, "}")]
    case DArray(items) => [Token(TokenLeftBracket, "[")] + ItemToks(items) + [Token(TokenRightBracket, "]")]
  }

  /** Members separated by commas: key, colon, value. */
  function MemberToks(ms: seq<Member>): seq<Token> {
    if ms == [] then []
    else
      [Token(TokenString, ms[0].key), Token(TokenColon, ":")] + Toks(ms[0].value) +
      (if |ms| == 1 then [] else [Token(TokenComma, ",")] + MemberToks(ms[1..]))
  }

  /** Items separated by commas. */
  function ItemToks(items: seq<Doc>): seq<Token> {
    if items == [] then []
    else Toks(items[0]) + (if |items| == 1 then [] else [Token(TokenComma, ",")] + ItemToks(items[1..]))
  }

  /** From parser state st the lexer yields toks: st's lookahead is the first of them,
      each nextToken succeeds and yields the next, and the state once all are consumed is
      after. */
  predicate Reads(input: string, st: PState, toks: seq<Token>, after: PState)
    decreases |toks|
  {
    st.at <= |input| &&
    if toks == [] then st == after
    else st.tok == toks[0] && Lex(input, st.at).Ok? && Reads(input, Lex(input, st.at).value, toks[1..], after)
  }

  /** Reading a concatenation is reading its parts one after the other. */
  lemma {:induction false} ReadsSplit(input: string, st: PState, a: seq<Token>, b: seq<Token>, after: PState)
    returns (mid: PState)
    requires Reads(input, st, a + b, after)
    ensures Reads(input, st, a, mid) && Reads(input, mid, b, after)
    decreases |a|
  {
    if a == [] {
      assert a + b == b;
      mid := st;
    } else {
      assert (a + b)[0] == a[0];
      assert (a + b)[1..] == a[1..] + b;
      mid := ReadsSplit(input, Lex(input, st.at).value, a[1..], b, after);
    }
  }

  /** Reading one token. */
  lemma ReadsOne(input: string, st: PState, t: Token, after: PState)
    requires Reads(input, st, [t], after)
    ensures st.at <= |input| && st.tok == t && Lex(input, st.at) == Ok(after)
  {
    assert [t][1..] == [];
  }

  /** Reading two tokens. */
  lemma ReadsTwo(input: string, st: PState, t: Token, u: Token, after: PState) returns (mid: PState)
    requires Reads(input, st, [t, u], after)
    ensures st.at <= |input| && st.tok == t && Lex(input, st.at) == Ok(mid)
    ensures mid.at <= |input| && mid.tok == u && Lex(input, mid.at) == Ok(after)
  {
    assert [t, u] == [t] + [u];
    mid := ReadsSplit(input, st, [t], [u], after);
    ReadsOne(input, st, t, mid);
    ReadsOne(input, mid, u, after);
  }

  // ---------------------------------------------------------------------------
  // One step of each parsing function, given what the lexer yields.
  // ---------------------------------------------------------------------------

  /** parseObject, given what its loop reads. */
  lemma ObjectStep(input: string, st: PState, s1: PState, ps: seq<(string, Json)>, s2: PState, after: PState)
    requires st.at <= |input| && st.tok.kind == TokenLeftBrace && Lex(input, st.at) == Ok(s1)
    requires MembersS(input, s1, []) == Ok((ps, s2)) && Lex(input, s2.at) == Ok(after)
    ensures ParseValueS(input, st) == Ok((JObject(FromPairs(ps)), after))
  {
  }

  /** parseArray, given what its loop reads. */
  lemma ArrayStep(input: string, st: PState, s1: PState, vs: seq<Json>, s2: PState, after: PState)
    requires st.at <= |input| && st.tok.kind == TokenLeftBracket && Lex(input, st.at) == Ok(s1)
    requires ElementsS(input, s1, []) == Ok((vs, s2)) && Lex(input, s2.at) == Ok(after)
    ensures ParseValueS(input, st) == Ok((JArray(vs), after))
  {
  }

  /** One pass of parseObject's loop that ends on a comma. */
  lemma MembersStepComma(input: string, st: PState, acc: seq<(string, Json)>, colon: PState, valueStart: PState,
                         v: Json, after: PState, next: PState)
    requires st.at <= |input| && st.tok.kind == TokenString
    requires Lex(input, st.at) == Ok(colon) && colon.tok.kind == TokenColon
    requires Lex(input, colon.at) == Ok(valueStart) && ParseValueS(input, valueStart) == Ok((v, after))
    requires after.tok.kind == TokenComma && Lex(input, after.at) == Ok(next)
    ensures MembersS(input, st, acc) == MembersS(input, next, acc + [(st.tok.value, v)])
  {
  }

  /** One pass of parseObject's loop that ends on the closing brace. */
  lemma MembersStepLast(input: string, st: PState, acc: seq<(string, Json)>, colon: PState, valueStart: PState,
                        v: Json, after: PState)
    requires st.at <= |input| && st.tok.kind == TokenString
    requires Lex(input, st.at) == Ok(colon) && colon.tok.kind == TokenColon
    requires Lex(input, colon.at) == Ok(valueStart) && ParseValueS(input, valueStart) == Ok((v, after))
    requires after.tok.kind == TokenRightBrace
    ensures MembersS(input, st, acc) == Ok((acc + [(st.tok.value, v)], after))
  {
  }

  /** One pass of parseArray's loop that ends on a comma. */
  lemma ElementsStepComma(input: string, st: PState, acc: seq<Json>, v: Json, after: PState, next: PState)
    requires st.at <= |input| && st.tok.kind != TokenRightBracket
    requires ParseValueS(input, st) == Ok((v, after))
    requires after.tok.kind == TokenComma && Lex(input, after.at) == Ok(next)
    ensures ElementsS(input, st, acc) == ElementsS(input, next, acc + [v])
  {
  }

  /** One pass of parseArray's loop that ends on the closing bracket. */
  lemma ElementsStepLast(input: string, st: PState, acc: seq<Json>, v: Json, after: PState)
    requires st.at <= |input| && st.tok.kind != TokenRightBracket
    requires ParseValueS(input, st) == Ok((v, after)) && after.tok.kind == TokenRightBracket
    ensures ElementsS(input, st, acc) == Ok((acc + [v], after))
  {
  }

  // ---------------------------------------------------------------------------
  // The round trip, on tokens.
  // ---------------------------------------------------------------------------

  /** parseValue, with the lexer yielding the tokens of d, returns what d denotes and
      stops on the token after them. */
  lemma {:induction false} ValueParses(input: string, st: PState, d: Doc, after: PState)
    requires Reads(input, st, Toks(d), after)
    ensures ParseValueS(input, st) == Ok((Meaning(d), after))
    decreases |Toks(d)|, 1
  {
    match d
    case DObject(ms) =>
      ObjectParses(input, st, ms, after);
    case DArray(items) =>
      ArrayParses(input, st, items, after);
    case _ =>
      ReadsOne(input, st, Toks(d)[0], after);
  }

  lemma {:induction false} ObjectParses(input: string, st: PState, ms: seq<Member>, after: PState)
    requires Reads(input, st, Toks(DObject(ms)), after)
    ensures ParseValueS(input, st) == Ok((JObject(FromPairs(MeaningPairs(ms))), after))
    decreases |Toks(DObject(ms))|, 0
  {
    var lb := Token(TokenLeftBrace, "{");
    var rb := Token(TokenRightBrace, "}");
    var close := ReadsSplit(input, st, [lb] + MemberToks(ms), [rb], after);
    var s1 := ReadsSplit(input, st, [lb], MemberToks(ms), close);
    ReadsOne(input, st, lb, s1);
    ReadsOne(input, close, rb, after);
    MembersParse(input, s1, ms, [], close);
    assert [] + MeaningPairs(ms) == MeaningPairs(ms);
    ObjectStep(input, st, s1, MeaningPairs(ms), close, after);
  }

  lemma {:induction false} ArrayParses(input: string, st: PState, items: seq<Doc>, after: PState)
    requires Reads(input, st, Toks(DArray(items)), after)
    ensures ParseValueS(input, st) == Ok((JArray(MeaningItems(items)), after))
    decreases |Toks(DArray(items))|, 0
  {
    var lb := Token(TokenLeftBracket, "[");
    var rb := Token(TokenRightBracket, "]");
    var close := ReadsSplit(input, st, [lb] + ItemToks(items), [rb], after);
    var s1 := ReadsSplit(input, st, [lb], ItemToks(items), close);
    ReadsOne(input, st, lb, s1);
    ReadsOne(input, close, rb, after);
    ItemsParse(input, s1, items, [], close);
    assert [] + MeaningItems(items) == MeaningItems(items);
    ArrayStep(input, st, s1, MeaningItems(items), close, after);
  }

  /** What the lexer yields for the first member of ms and the separator after it. */
  lemma {:induction false} MemberPieces(input: string, st: PState, ms: seq<Member>, close: PState)
    returns (colon: PState, valueStart: PState, valueEnd: PState)
    requires ms != [] && Reads(input, st, MemberToks(ms), close)
    ensures st.at <= |input| && st.tok == Token(TokenString, ms[0].key) && Lex(input, st.at) == Ok(colon)
    ensures colon.at <= |input| && colon.tok.kind == TokenColon && Lex(input, colon.at) == Ok(valueStart)
    ensures Reads(input, valueStart, Toks(ms[0].value), valueEnd)
    ensures |ms| == 1 ==> valueEnd == close
    ensures |ms| > 1 ==> valueEnd.at <= |input| && valueEnd.tok.kind == TokenComma && Lex(input, valueEnd.at).Ok?
    ensures |ms| > 1 ==> Reads(input, Lex(input, valueEnd.at).value, MemberToks(ms[1..]), close)
  {
    var key := [Token(TokenString, ms[0].key), Token(TokenColon, ":")];
    var rest := if |ms| == 1 then [] else [Token(TokenComma, ",")] + MemberToks(ms[1..]);
    assert MemberToks(ms) == key + Toks(ms[0].value) + rest;
    valueEnd := ReadsSplit(input, st, key + Toks(ms[0].value), rest, close);
    valueStart := ReadsSplit(input, st, key, Toks(ms[0].value), valueEnd);
    colon := ReadsTwo(input, st, key[0], key[1], valueStart);
    if |ms| > 1 {
      var next := ReadsSplit(input, valueEnd, [Token(TokenComma, ",")], MemberToks(ms[1..]), close);
      ReadsOne(input, valueEnd, Token(TokenComma, ","), next);
    }
  }

  /** What the lexer yields for the first item of items and the separator after it. */
  lemma {:induction false} ItemPieces(input: string, st: PState, items: seq<Doc>, close: PState)
    returns (valueEnd: PState)
    requires items != [] && Reads(input, st, ItemToks(items), close)
    ensures Reads(input, st, Toks(items[0]), valueEnd)
    ensures |items| == 1 ==> valueEnd == close
    ensures |items| > 1 ==> valueEnd.at <= |input| && valueEnd.tok.kind == TokenComma && Lex(input, valueEnd.at).Ok?
    ensures |items| > 1 ==> Reads(input, Lex(input, valueEnd.at).value, ItemToks(items[1..]), close)
  {
    var rest := if |items| == 1 then [] else [Token(TokenComma, ",")] + ItemToks(items[1..]);
    assert ItemToks(items) == Toks(items[0]) + rest;
    valueEnd := ReadsSplit(input, st, Toks(items[0]), rest, close);
    if |items| > 1 {
      var next := ReadsSplit(input, valueEnd, [Token(TokenComma, ",")], ItemToks(items[1..]), close);
      ReadsOne(input, valueEnd, Token(TokenComma, ","), next);
    }
  }

  /** A value's first token is never a closing bracket. */
  lemma FirstNotBracket(input: string, st: PState, d: Doc, after: PState)
    requires Reads(input, st, Toks(d), after)
    ensures st.at <= |input| && st.tok.kind != TokenRightBracket
  {
    assert Toks(d)[0].kind != TokenRightBracket;
  }

  /** parseObject's loop, with the lexer yielding the tokens of ms and then a `}`, reads
      the pairs in order and stops on that `}`. */
  lemma {:induction false} MembersParse(input: string, st: PState, ms: seq<Member>, acc: seq<(string, Json)>,
                                        close: PState)
    requires Reads(input, st, MemberToks(ms), close) && close.tok.kind == TokenRightBrace
    ensures MembersS(input, st, acc) == Ok((acc + MeaningPairs(ms), close))
    decreases |MemberToks(ms)|, 2
  {
    if ms == [] {
      assert acc + MeaningPairs(ms) == acc;
    } else {
      var colon, valueStart, valueEnd := MemberPieces(input, st, ms, close);
      var v := Meaning(ms[0].value);
      var pair := (ms[0].key, v);
      var tail := MeaningPairs(ms[1..]);
      assert acc + ([pair] + tail) == acc + [pair] + tail;
      assert MeaningPairs(ms) == [pair] + tail;
      ValueParses(input, valueStart, ms[0].value, valueEnd);
      if |ms| == 1 {
        MembersStepLast(input, st, acc, colon, valueStart, v, valueEnd);
        assert MeaningPairs(ms) == [pair];
      } else {
        var next := Lex(input, valueEnd.at).value;
        MembersStepComma(input, st, acc, colon, valueStart, v, valueEnd, next);
        MembersParse(input, next, ms[1..], acc + [pair], close);
      }
    }
  }

  /** parseArray's loop, with the lexer yielding the tokens of items and then a `]`,
      reads the elements in order and stops on that `]`. */
  lemma {:induction false} ItemsParse(input: string, st: PState, items: seq<Doc>, acc: seq<Json>, close: PState)
    requires Reads(input, st, ItemToks(items), close) && close.tok.kind == TokenRightBracket
    ensures ElementsS(input, st, acc) == Ok((acc + MeaningItems(items), close))
    decreases |ItemToks(items)|, 2
  {
    if items == [] {
      assert acc + MeaningItems(items) == acc;
    } else {
      var valueEnd := ItemPieces(input, st, items, close);
      var v := Meaning(items[0]);
      var tail := MeaningItems(items[1..]);
      assert acc + ([v] + tail) == acc + [v] + tail;
      assert MeaningItems(items) == [v] + tail;
      ValueParses(input, st, items[0], valueEnd);
      FirstNotBracket(input, st, items[0], valueEnd);
      if |items| == 1 {
        ElementsStepLast(input, st, acc, v, valueEnd);
        assert MeaningItems(items) == [v];
      } else {
        var next := Lex(input, valueEnd.at).value;
        ElementsStepComma(input, st, acc, v, valueEnd, next);
        ItemsParse(input, next, items[1..], acc + [v], close);
      }
    }
  }

  /** A whole input whose tokens are those of an object or array document parses to what
      the document denotes, whatever follows, provided the one token after the closer
      lexes without error. */
  lemma DocumentParses(input: string, d: Doc, s0: PState, after: PState)
    requires d.DObject? || d.DArray?
    requires Lex(input, 0) == Ok(s0) && Reads(input, s0, Toks(d), after)
    ensures ParseText(input) == Ok(Meaning(d))
  {
    ValueParses(input, s0, d, after);
  }
}
