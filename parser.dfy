/**
 * The one-token-lookahead recursive-descent parser of main.go.
 *
 * The parser's state is its lookahead token and the lexer's cursor (PState).  The
 * specification functions below follow the Go methods step for step, with every panic
 * turned into an Err; the `Parser` class has the fields and loops of the Go code, and
 * each of its methods is proved to compute the specification function.
 */
module Parsing {
  import opened Tokens
  import opened Lexing

  /** The values parseValue returns.  A number keeps its lexeme: the conversion by
      strconv.ParseFloat is not modelled. */
  datatype Json =
    | JString(text: string)
    | JNumber(lexeme: string)
    | JBool(b: bool)
    | JNull
    | JObject(fields: map<string, Json>)
    | JArray(elems: seq<Json>)

  /** The parser's state: the lookahead token and the index of the lexer's cursor. */
  datatype PState = PState(tok: Token, at: nat)

  /** Strictly decreases with every token the parser consumes. */
  function Measure(input: string, st: PState): nat
    requires st.at <= |input|
  {
    |input| - st.at + (if st.tok.kind != TokenEOF then 1 else 0)
  }

  /** Parser.nextToken with the lexer's cursor at index i. */
  function Lex(input: string, i: nat): (r: Result<PState>)
    requires i <= |input|
    ensures r.Ok? ==> i <= r.value.at <= |input|
    ensures r.Ok? ==> Measure(input, r.value) <= |input| - i
  {
    var (t, j) := NextTok(input, i);
    if t.Err? then Err(t.error) else Ok(PState(t.value, j))
  }

  /** The map that `obj[key] = value`, applied to the pairs in order, builds. */
  function FromPairs(ps: seq<(string, Json)>): map<string, Json>
  {
    if ps == [] then map[] else FromPairs(ps[..|ps| - 1])[ps[|ps| - 1].0 := ps[|ps| - 1].1]
  }

  /** Appending a pair is one more `obj[key] = value`. */
  lemma FromPairsAppend(ps: seq<(string, Json)>, k: string, v: Json)
    ensures FromPairs(ps + [(k, v)]) == FromPairs(ps)[k := v]
  {
    assert (ps + [(k, v)])[..|ps|] == ps;
  }

  /** Last wins: a key is in the object exactly when some pair has it, and it is sent to
      the value of the last pair that has it. */
  lemma {:induction false} FromPairsLastWins(ps: seq<(string, Json)>, k: string)
    ensures k in FromPairs(ps) <==> exists i :: 0 <= i < |ps| && ps[i].0 == k
    ensures forall i ::
              (0 <= i < |ps| && ps[i].0 == k && (forall j :: i < j < |ps| ==> ps[j].0 != k)) ==>
                k in FromPairs(ps) && FromPairs(ps)[k] == ps[i].1
  {
    if ps != [] {
      var init := ps[..|ps| - 1];
      FromPairsLastWins(init, k);
      assert forall i :: 0 <= i < |init| ==> init[i] == ps[i];
      if ps[|ps| - 1].0 != k {
        if k in FromPairs(ps) {
          var i :| 0 <= i < |init| && init[i].0 == k;
          assert ps[i].0 == k;
        }
      }
    }
  }

  predicate IsValueStart(kind: TokenType) {
    kind == TokenString || kind == TokenNumber || kind == TokenBoolean || kind == TokenNull
    || kind == TokenLeftBrace || kind == TokenLeftBracket
  }

  /** parseValue on lookahead st.tok: the value and the state after it. */
  function ParseValueS(input: string, st: PState): (r: Result<(Json, PState)>)
    requires st.at <= |input|
    ensures r.Ok? ==> r.value.1.at <= |input| && Measure(input, r.value.1) < Measure(input, st)
    ensures r.Ok? ==> IsValueStart(st.tok.kind)
    ensures !IsValueStart(st.tok.kind) ==> r == Err(UnexpectedToken(st.tok.value))
    decreases Measure(input, st), 2
  {
    match st.tok.kind
    case TokenString =>
      var s1 :- Lex(input, st.at);
      Ok((JString(st.tok.value), s1))
    case TokenNumber =>
      var s1 :- Lex(input, st.at);
      Ok((JNumber(st.tok.value), s1))
    case TokenBoolean =>
      var s1 :- Lex(input, st.at);
      Ok((JBool(st.tok.value == "true"), s1))
    case TokenNull =>
      var s1 :- Lex(input, st.at);
      Ok((JNull, s1))
    case TokenLeftBrace =>
      ParseObjectS(input, st)
    case TokenLeftBracket =>
      ParseArrayS(input, st)
    case _ =>
      Err(UnexpectedToken(st.tok.value))
  }

  /** parseObject on lookahead `{`: the object and the state after its closing `}`. */
  function ParseObjectS(input: string, st: PState): (r: Result<(Json, PState)>)
    requires st.at <= |input| && st.tok.kind == TokenLeftBrace
    ensures r.Ok? ==> r.value.1.at <= |input| && Measure(input, r.value.1) < Measure(input, st)
    ensures r.Ok? ==> r.value.0.JObject?
    decreases Measure(input, st), 1
  {
    var s1 :- Lex(input, st.at);
    var members :- MembersS(input, s1, []);
    var s2 :- Lex(input, members.1.at);
    Ok((JObject(FromPairs(members.0)), s2))
  }

  /** The first half of parseObject's loop body on lookahead st.tok: a string key, a
      colon and a value; the pair and the state after the value. */
  function MemberS(input: string, st: PState): (r: Result<((string, Json), PState)>)
    requires st.at <= |input|
    ensures r.Ok? ==> r.value.1.at <= |input| && Measure(input, r.value.1) < Measure(input, st)
    ensures r.Ok? ==> st.tok.kind == TokenString && r.value.0.0 == st.tok.value
    ensures st.tok.kind != TokenString ==> r == Err(ExpectedKey)
    decreases Measure(input, st), 1
  {
    if st.tok.kind != TokenString then
      Err(ExpectedKey)
    else
      var s1 :- Lex(input, st.at);
      if s1.tok.kind != TokenColon then
        Err(ExpectedColon)
      else
        var s2 :- Lex(input, s1.at);
        var v :- ParseValueS(input, s2);
        Ok(((st.tok.value, v.0), v.1))
  }

  /** The loop of parseObject from its test, with `acc` the pairs read so far: all the
      pairs and the state whose lookahead is the closing `}`. */
  function MembersS(input: string, st: PState, acc: seq<(string, Json)>): (r: Result<(seq<(string, Json)>, PState)>)
    requires st.at <= |input|
    ensures r.Ok? ==> r.value.1.at <= |input| && Measure(input, r.value.1) <= Measure(input, st)
    ensures r.Ok? ==> r.value.1.tok.kind == TokenRightBrace && acc <= r.value.0
    ensures st.tok.kind != TokenRightBrace && st.tok.kind != TokenString ==> r == Err(ExpectedKey)
    decreases Measure(input, st), 3
  {
    if st.tok.kind == TokenRightBrace then
      Ok((acc, st))
    else
      var m :- MemberS(input, st);
      var pairs := acc + [m.0];
      if m.1.tok.kind == TokenComma then
        var s1 :- Lex(input, m.1.at);
        MembersS(input, s1, pairs)
      else if m.1.tok.kind != TokenRightBrace then
        Err(ExpectedCommaOrBrace)
      else
        MembersS(input, m.1, pairs)
  }

  /** parseObject after its first nextToken: the result is decided by the loop. */
  lemma ObjectFromMembers(input: string, st: PState, first: PState)
    requires st.at <= |input| && st.tok.kind == TokenLeftBrace
    requires Lex(input, st.at) == Ok(first)
    ensures first.at <= |input|
    ensures var ms := MembersS(input, first, []);
            ParseObjectS(input, st) ==
              if ms.Err? then Err(ms.error)
              else if Lex(input, ms.value.1.at).Err? then Err(Lex(input, ms.value.1.at).error)
              else Ok((JObject(FromPairs(ms.value.0)), Lex(input, ms.value.1.at).value))
  {
  }

  /** parseArray on lookahead `[`: the array and the state after its closing `]`. */
  function ParseArrayS(input: string, st: PState): (r: Result<(Json, PState)>)
    requires st.at <= |input| && st.tok.kind == TokenLeftBracket
    ensures r.Ok? ==> r.value.1.at <= |input| && Measure(input, r.value.1) < Measure(input, st)
    ensures r.Ok? ==> r.value.0.JArray?
    decreases Measure(input, st), 1
  {
    var s1 :- Lex(input, st.at);
    var elements :- ElementsS(input, s1, []);
    var s2 :- Lex(input, elements.1.at);
    Ok((JArray(elements.0), s2))
  }

  /** The loop of parseArray from its test, with `acc` the elements read so far: all the
      elements and the state whose lookahead is the closing `]`. */
  function ElementsS(input: string, st: PState, acc: seq<Json>): (r: Result<(seq<Json>, PState)>)
    requires st.at <= |input|
    ensures r.Ok? ==> r.value.1.at <= |input| && Measure(input, r.value.1) <= Measure(input, st)
    ensures r.Ok? ==> r.value.1.tok.kind == TokenRightBracket && acc <= r.value.0
    decreases Measure(input, st), 3
  {
    if st.tok.kind == TokenRightBracket then
      Ok((acc, st))
    else
      var v :- ParseValueS(input, st);
      var elements := acc + [v.0];
      if v.1.tok.kind == TokenComma then
        var s1 :- Lex(input, v.1.at);
        ElementsS(input, s1, elements)
      else if v.1.tok.kind != TokenRightBracket then
        Err(ExpectedCommaOrBracket)
      else
        ElementsS(input, v.1, elements)
  }

  /** parseJSON: only an object or an array may start the document. */
  function ParseJSONS(input: string, st: PState): (r: Result<Json>)
    requires st.at <= |input|
    ensures r.Ok? ==>
              (st.tok.kind == TokenLeftBrace && r.value.JObject?) ||
              (st.tok.kind == TokenLeftBracket && r.value.JArray?)
    ensures st.tok.kind != TokenLeftBrace && st.tok.kind != TokenLeftBracket ==> r == Err(InvalidStart)
  {
    match st.tok.kind
    case TokenLeftBrace =>
      var v :- ParseObjectS(input, st);
      Ok(v.0)
    case TokenLeftBracket =>
      var v :- ParseArrayS(input, st);
      Ok(v.0)
    case _ =>
      Err(InvalidStart)
  }

  /** NewLexer, NewParser and parseJSON on a whole input. */
  function ParseText(input: string): (r: Result<Json>)
    ensures r.Ok? ==> r.value.JObject? || r.value.JArray?
  {
    var s0 :- Lex(input, 0);
    ParseJSONS(input, s0)
  }

  /** A method's result and new state agree with a specification function's result. */
  ghost predicate Agrees(r: Result<Json>, spec: Result<(Json, PState)>, now: PState) {
    match spec
    case Ok(p) => r == Ok(p.0) && now == p.1
    case Err(e) => r == Err(e)
  }

  class Parser {
    const lexer: Lexer
    var token: Token

    ghost predicate Valid()
      reads this, lexer
    {
      lexer.Valid()
    }

    ghost function State(): PState
      reads this, lexer
    {
      PState(token, lexer.idx)
    }

    /** The struct literal &Parser{lexer: lexer}; the token is Go's zero value. */
    constructor (lexer: Lexer)
      ensures this.lexer == lexer && token == Token(TokenString, "")
    {
      this.lexer := lexer;
      token := Token(TokenString, "");
    }

    method NextToken() returns (o: Outcome)
      requires Valid()
      modifies this, lexer
      ensures Valid()
      ensures o.Pass? ==> Lex(lexer.input, old(lexer.idx)) == Ok(State())
      ensures o.Fail? ==> Lex(lexer.input, old(lexer.idx)) == Err(o.error)
    {
      var r := lexer.NextToken();
      if r.Err? {
        return Fail(r.error);
      }
      token := r.value;
      return Pass;
    }

    method ParseJSON() returns (r: Result<Json>)
      requires Valid()
      modifies this, lexer
      ensures Valid()
      ensures r == ParseJSONS(lexer.input, old(State()))
    {
      match token.kind
      case TokenLeftBrace =>
        r := ParseObject();
      case TokenLeftBracket =>
        r := ParseArray();
      case _ =>
        r := Err(InvalidStart);
    }

    method ParseObject() returns (r: Result<Json>)
      requires Valid() && token.kind == TokenLeftBrace
      modifies this, lexer
      ensures Valid()
      ensures Agrees(r, ParseObjectS(lexer.input, old(State())), State())
      decreases Measure(lexer.input, State()), 1
    {
      ghost var input := lexer.input;
      ghost var start := State();
      var obj: map<string, Json> := map[];
      ghost var pairs: seq<(string, Json)> := [];
      var o := NextToken();
      if o.Fail? {
        return Err(o.error);
      }
      ghost var first := State();
      ghost var target := MembersS(input, first, []);
      ObjectFromMembers(input, start, first);
      while token.kind != TokenRightBrace
        invariant Valid() && obj == FromPairs(pairs)
        invariant Measure(input, State()) < Measure(input, start)
        invariant MembersS(input, State(), pairs) == target
        decreases Measure(input, State())
      {
        var member := ParseMember();
        if member.Err? {
          return Err(member.error);
        }
        var (key, value) := member.value;
        FromPairsAppend(pairs, key, value);
        obj := obj[key := value];
        pairs := pairs + [(key, value)];
        if token.kind == TokenComma {
          o := NextToken();
          if o.Fail? {
            return Err(o.error);
          }
        } else if token.kind != TokenRightBrace {
          return Err(ExpectedCommaOrBrace);
        }
      }
      o := NextToken();
      if o.Fail? {
        return Err(o.error);
      }
      return Ok(JObject(obj));
    }

    /** The first half of parseObject's loop body: the key, the colon and the value. */
    method ParseMember() returns (r: Result<(string, Json)>)
      requires Valid()
      modifies this, lexer
      ensures Valid()
      ensures match MemberS(lexer.input, old(State()))
              case Ok(p) => r == Ok(p.0) && State() == p.1
              case Err(e) => r == Err(e)
      decreases Measure(lexer.input, State()), 1
    {
      if token.kind != TokenString {
        return Err(ExpectedKey);
      }
      var key := token.value;
      var o := NextToken();
      if o.Fail? {
        return Err(o.error);
      }
      if token.kind != TokenColon {
        return Err(ExpectedColon);
      }
      o := NextToken();
      if o.Fail? {
        return Err(o.error);
      }
      var value := ParseValue();
      if value.Err? {
        return Err(value.error);
      }
      return Ok((key, value.value));
    }

    method ParseArray() returns (r: Result<Json>)
      requires Valid() && token.kind == TokenLeftBracket
      modifies this, lexer
      ensures Valid()
      ensures Agrees(r, ParseArrayS(lexer.input, old(State())), State())
      decreases Measure(lexer.input, State()), 1
    {
      var arr: seq<Json> := [];
      var o := NextToken();
      if o.Fail? {
        return Err(o.error);
      }
      ghost var first := State();
      while token.kind != TokenRightBracket
        invariant Valid()
        invariant Measure(lexer.input, State()) < old(Measure(lexer.input, State()))
        invariant ElementsS(lexer.input, State(), arr) == ElementsS(lexer.input, first, [])
        decreases Measure(lexer.input, State())
      {
        var value := ParseValue();
        if value.Err? {
          return Err(value.error);
        }
        arr := arr + [value.value];
        if token.kind == TokenComma {
          o := NextToken();
          if o.Fail? {
            return Err(o.error);
          }
        } else if token.kind != TokenRightBracket {
          return Err(ExpectedCommaOrBracket);
        }
      }
      o := NextToken();
      if o.Fail? {
        return Err(o.error);
      }
      return Ok(JArray(arr));
    }

    method ParseValue() returns (r: Result<Json>)
      requires Valid()
      modifies this, lexer
      ensures Valid()
      ensures Agrees(r, ParseValueS(lexer.input, old(State())), State())
      decreases Measure(lexer.input, State()), 2
    {
      match token.kind
      case TokenString =>
        var val := token.value;
        var o := NextToken();
        if o.Fail? {
          return Err(o.error);
        }
        return Ok(JString(val));
      case TokenNumber =>
        var val := token.value;
        var o := NextToken();
        if o.Fail? {
          return Err(o.error);
        }
        return Ok(JNumber(val));
      case TokenBoolean =>
        var val := token.value == "true";
        var o := NextToken();
        if o.Fail? {
          return Err(o.error);
        }
        return Ok(JBool(val));
      case TokenNull =>
        var o := NextToken();
        if o.Fail? {
          return Err(o.error);
        }
        return Ok(JNull);
      case TokenLeftBrace =>
        r := ParseObject();
      case TokenLeftBracket =>
        r := ParseArray();
      case _ =>
        r := Err(UnexpectedToken(token.value));
    }
  }

  /** NewParser: a parser whose lookahead is the lexer's first token. */
  method NewParser(lexer: Lexer) returns (r: Result<Parser>)
    requires lexer.Valid()
    modifies lexer
    ensures lexer.Valid()
    ensures match Lex(lexer.input, old(lexer.idx))
            case Ok(s) => r.Ok? && fresh(r.value) && r.value.lexer == lexer
                          && r.value.Valid() && r.value.State() == s
            case Err(e) => r == Err(e)
  {
    var p := new Parser(lexer);
    var o := p.NextToken();
    if o.Fail? {
      return Err(o.error);
    }
    return Ok(p);
  }

  /** The driver sequence NewLexer, NewParser, parseJSON on one input. */
  method ParseDocument(input: string) returns (r: Result<Json>)
    ensures r == ParseText(input)
  {
    var lexer := new Lexer(input);
    var p := NewParser(lexer);
    if p.Err? {
      return Err(p.error);
    }
    r := p.value.ParseJSON();
  }
}
