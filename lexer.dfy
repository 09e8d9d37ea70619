/**
 * The hand-written lexer of main.go.
 *
 * The input is a Go string read byte by byte: each `char` of `input` stands for one
 * byte (a value from 0 to 255), and `current` holds that byte as a rune, or 0 once the
 * input is exhausted.
 *
 * The first half of the module is a specification over indices: the lexer's cursor is
 * the index of the byte in `current` (|input| once exhausted), and every scan is a
 * function from an index to a token and a new index.  The second half is the `Lexer`
 * class with the fields and loops of the Go code, each method proved to compute the
 * specification function.
 */
module Lexing {
  import opened Tokens

  /** The value `current` holds once the input is exhausted. */
  const NUL: char := 0 as char

  // ---------------------------------------------------------------------------
  // Character classes: Go's unicode.IsSpace, IsDigit and IsLetter on runes 0..255.
  // ---------------------------------------------------------------------------

  predicate IsSpace(c: char) {
    c == ' ' || ('\t' <= c <= '\r') || c as int == 0x85 || c as int == 0xA0
  }

  predicate IsDigit(c: char) {
    '0' <= c <= '9'
  }

  predicate IsLetter(c: char) {
    ('A' <= c <= 'Z') || ('a' <= c <= 'z')
    || c as int == 0xAA || c as int == 0xB5 || c as int == 0xBA
    || (0xC0 <= c as int <= 0xFF && c as int != 0xD7 && c as int != 0xF7)
  }

  /** The bytes a number run may contain: digits, `.` and `-`. */
  predicate IsNumberChar(c: char) {
    IsDigit(c) || c == '.' || c == '-'
  }

  /** The bytes a string scan copies: anything but a quote or a zero byte. */
  predicate IsStringChar(c: char) {
    c != '"' && c != NUL
  }

  /** The six single-byte punctuation tokens. */
  predicate IsStructural(c: char) {
    c == '{' || c == '}' || c == '[' || c == ']' || c == ':' || c == ','
  }

  function StructuralKind(c: char): TokenType
    requires IsStructural(c)
  {
    match c
    case '{' => TokenLeftBrace
    case '}' => TokenRightBrace
    case '[' => TokenLeftBracket
    case ']' => TokenRightBracket
    case ':' => TokenColon
    case ',' => TokenComma
  }

  /** The byte classes the scanning loops test. */
  datatype ByteClass = Space | StringByte | NumberByte | Letter

  predicate InClass(cls: ByteClass, c: char) {
    match cls
    case Space => IsSpace(c)
    case StringByte => IsStringChar(c)
    case NumberByte => IsNumberChar(c)
    case Letter => IsLetter(c)
  }

  /** A byte on which nextToken starts a token rather than answering TokenEOF. */
  predicate IsTokenStart(c: char) {
    IsStructural(c) || c == '"' || IsDigit(c) || c == '-' || IsLetter(c)
  }

  // ---------------------------------------------------------------------------
  // The cursor as an index.
  // ---------------------------------------------------------------------------

  /** The byte in `current` when the cursor is at index i. */
  function CurrentAt(input: string, i: nat): char {
    if i < |input| then input[i] else NUL
  }

  /** One `advance`: the index moves on by one, and stays at |input| once there.
      It is also the value of `pos` when `current` holds index i. */
  function Succ(input: string, i: nat): (j: nat)
    requires i <= |input|
    ensures j <= |input|
    ensures i < |input| ==> j == i + 1
    ensures i == |input| ==> j == i
  {
    if i < |input| then i + 1 else |input|
  }

  /** Where a scanning loop, which advances while the byte is of class cls, stops when started at index i. */
  function Span(input: string, i: nat, cls: ByteClass): (k: nat)
    requires i <= |input|
    ensures i <= k <= |input|
    ensures !InClass(cls, CurrentAt(input, k))
    decreases |input| - i
  {
    if InClass(cls, CurrentAt(input, i)) then Span(input, i + 1, cls) else i
  }

  /** Every byte a scan passes over is of the scanned class. */
  lemma {:induction false} SpanAll(input: string, i: nat, cls: ByteClass)
    requires i <= |input|
    ensures forall m :: i <= m < Span(input, i, cls) ==> InClass(cls, input[m])
    decreases |input| - i
  {
    if InClass(cls, CurrentAt(input, i)) {
      SpanAll(input, i + 1, cls);
    }
  }

  /** The stopping point of a scan is determined by the bytes alone. */
  lemma {:induction false} SpanIs(input: string, i: nat, k: nat, cls: ByteClass)
    requires i <= k <= |input|
    requires forall m :: i <= m < k ==> InClass(cls, input[m])
    requires !InClass(cls, CurrentAt(input, k))
    ensures Span(input, i, cls) == k
    decreases k - i
  {
    if i < k {
      SpanIs(input, i + 1, k, cls);
    }
  }

  // ---------------------------------------------------------------------------
  // The scans, as functions of the index of their first byte.
  // ---------------------------------------------------------------------------

  /** readKeyword's switch on the letter run it read. */
  function Classify(word: string): (r: Result<Token>)
    ensures r.Ok? <==> word == "true" || word == "false" || word == "null"
    ensures r.Ok? ==> r.value.value == word
    ensures r.Ok? ==> (r.value.kind == TokenNull <==> word == "null")
    ensures r.Ok? ==> (r.value.kind == TokenBoolean <==> word != "null")
    ensures r.Err? ==> r.error == UnexpectedKeyword(word)
  {
    if word == "true" || word == "false" then Ok(Token(TokenBoolean, word))
    else if word == "null" then Ok(Token(TokenNull, word))
    else Err(UnexpectedKeyword(word))
  }

  /** readString started on the opening quote at index q: the token and the index after it. */
  function ScanString(input: string, q: nat): (r: (Token, nat))
    requires q < |input| && input[q] == '"'
    ensures r.0.kind == TokenString
    ensures q < r.1 <= |input|
    ensures forall m :: 0 <= m < |r.0.value| ==> IsStringChar(r.0.value[m])
  {
    var k := Span(input, q + 1, StringByte);
    SpanAll(input, q + 1, StringByte);
    (Token(TokenString, input[q + 1..k]), Succ(input, k))
  }

  /** readNumber started at index s.  The value is the slice input[start : pos-1], which
      loses the run's last byte when the run ends the input. */
  function ScanNumber(input: string, s: nat): (r: (Token, nat))
    requires s < |input|
    ensures r.0.kind == TokenNumber
    ensures s <= r.1 <= |input|
    ensures IsNumberChar(input[s]) ==> s < r.1
    ensures forall m :: 0 <= m < |r.0.value| ==> IsNumberChar(r.0.value[m])
  {
    var k := Span(input, s, NumberByte);
    SpanAll(input, s, NumberByte);
    (Token(TokenNumber, input[s..Succ(input, k) - 1]), k)
  }

  /** readKeyword started at index s: the classified letter run (sliced as in ScanNumber)
      and the index after the run. */
  function ScanKeyword(input: string, s: nat): (r: (Result<Token>, nat))
    requires s < |input|
    ensures s <= r.1 <= |input|
    ensures IsLetter(input[s]) ==> s < r.1
    ensures r.0.Ok? ==> r.0.value.kind == TokenBoolean || r.0.value.kind == TokenNull
  {
    var k := Span(input, s, Letter);
    (Classify(input[s..Succ(input, k) - 1]), k)
  }

  /** nextToken with the cursor at index i: the token (or the keyword error) and the new index. */
  function NextTok(input: string, i: nat): (r: (Result<Token>, nat))
    requires i <= |input|
    ensures Span(input, i, Space) <= r.1 <= |input|
    ensures r.0.Ok? && r.0.value.kind != TokenEOF ==> Span(input, i, Space) < r.1
    ensures r.0.Ok? && r.0.value.kind == TokenEOF <==> !IsTokenStart(CurrentAt(input, Span(input, i, Space)))
    ensures r.0.Ok? && r.0.value.kind == TokenEOF ==>
              r == (Ok(Token(TokenEOF, "")), Span(input, i, Space))
    ensures var j := Span(input, i, Space); var c := CurrentAt(input, j);
            IsStructural(c) ==> r == (Ok(Token(StructuralKind(c), [c])), j + 1)
    ensures r.0.Err? ==> IsLetter(CurrentAt(input, Span(input, i, Space)))
  {
    var j := Span(input, i, Space);
    var c := CurrentAt(input, j);
    if IsStructural(c) then
      (Ok(Token(StructuralKind(c), [c])), Succ(input, j))
    else if c == '"' then
      var (t, k) := ScanString(input, j);
      (Ok(t), k)
    else if IsDigit(c) || c == '-' then
      var (t, k) := ScanNumber(input, j);
      (Ok(t), k)
    else if IsLetter(c) then
      ScanKeyword(input, j)
    else
      (Ok(Token(TokenEOF, "")), j)
  }

  // ---------------------------------------------------------------------------
  // What the scans read, stated by the bytes of the input alone.
  // ---------------------------------------------------------------------------

  /** A string token is exactly the bytes between the opening quote at q and the first
      quote or zero byte after it (or the end of input), copied verbatim; a closing
      quote is consumed. */
  lemma StringTokenIs(input: string, q: nat, k: nat)
    requires q < k <= |input| && input[q] == '"'
    requires forall m :: q < m < k ==> input[m] != '"' && input[m] != NUL
    requires k == |input| || input[k] == '"' || input[k] == NUL
    ensures ScanString(input, q) == (Token(TokenString, input[q + 1..k]), if k < |input| then k + 1 else k)
  {
    SpanIs(input, q + 1, k, StringByte);
  }

  /** When a byte follows the run, a number token is exactly the maximal run of digits,
      `.` and `-` that starts the token, and the cursor rests on the byte after it. */
  lemma NumberTokenIs(input: string, s: nat, k: nat)
    requires s < k < |input|
    requires forall m :: s <= m < k ==> IsNumberChar(input[m])
    requires !IsNumberChar(input[k])
    ensures ScanNumber(input, s) == (Token(TokenNumber, input[s..k]), k)
  {
    SpanIs(input, s, k, NumberByte);
  }

  /** When the run reaches the end of input, the number token lacks the run's last byte. */
  lemma NumberTokenAtEnd(input: string, s: nat)
    requires s < |input|
    requires forall m :: s <= m < |input| ==> IsNumberChar(input[m])
    ensures ScanNumber(input, s) == (Token(TokenNumber, input[s..|input| - 1]), |input|)
  {
    SpanIs(input, s, |input|, NumberByte);
  }

  /** When a byte follows the run, a keyword token classifies exactly the maximal letter run. */
  lemma KeywordTokenIs(input: string, s: nat, k: nat)
    requires s < k < |input|
    requires forall m :: s <= m < k ==> IsLetter(input[m])
    requires !IsLetter(input[k])
    ensures ScanKeyword(input, s) == (Classify(input[s..k]), k)
  {
    SpanIs(input, s, k, Letter);
  }

  /** When the letter run reaches the end of input, its last letter is dropped before the
      run is classified. */
  lemma KeywordTokenAtEnd(input: string, s: nat)
    requires s < |input|
    requires forall m :: s <= m < |input| ==> IsLetter(input[m])
    ensures ScanKeyword(input, s) == (Classify(input[s..|input| - 1]), |input|)
  {
    SpanIs(input, s, |input|, Letter);
  }

  // ---------------------------------------------------------------------------
  // The Lexer object.
  // ---------------------------------------------------------------------------

  class Lexer {
    const input: string
    var pos: nat
    var current: char
    /** The index of the byte in `current`; |input| once the input is exhausted. */
    ghost var idx: nat

    /** `current` is the byte at pos-1, or 0 once the input is exhausted. */
    ghost predicate Valid()
      reads this
    {
      idx <= |input| && pos == Succ(input, idx) && current == CurrentAt(input, idx)
    }

    /** NewLexer: a cursor on the first byte. */
    constructor (input: string)
      ensures this.input == input
      ensures Valid() && idx == 0
    {
      this.input := input;
      pos := 0;
      current := NUL;
      new;
      Advance();
    }

    method Advance()
      requires pos <= |input|
      modifies this
      ensures old(pos) < |input| ==> current == input[old(pos)] && pos == old(pos) + 1
      ensures old(pos) == |input| ==> current == NUL && pos == old(pos)
      ensures idx == old(pos)
      ensures Valid()
    {
      if pos < |input| {
        current := input[pos];
        idx := pos;
        pos := pos + 1;
      } else {
        current := NUL;
        idx := |input|;
      }
    }

    method SkipWhitespace()
      requires Valid()
      modifies this
      ensures Valid() && idx == Span(input, old(idx), Space)
    {
      while IsSpace(current)
        invariant Valid() && old(idx) <= idx
        invariant Span(input, idx, Space) == Span(input, old(idx), Space)
        decreases |input| - idx
      {
        Advance();
      }
    }

    method NextToken() returns (r: Result<Token>)
      requires Valid()
      modifies this
      ensures Valid()
      ensures (r, idx) == NextTok(input, old(idx))
    {
      SkipWhitespace();
      match current
      case '{' =>
        Advance();
        return Ok(Token(TokenLeftBrace, "{"));
      case '}' =>
        Advance();
        return Ok(Token(TokenRightBrace, "}"));
      case '[' =>
        Advance();
        return Ok(Token(TokenLeftBracket, "["));
      case ']' =>
        Advance();
        return Ok(Token(TokenRightBracket, "]"));
      case ':' =>
        Advance();
        return Ok(Token(TokenColon, ":"));
      case ',' =>
        Advance();
        return Ok(Token(TokenComma, ","));
      case '"' =>
        var t := ReadString();
        return Ok(t);
      case _ =>
        if IsDigit(current) || current == '-' {
          var t := ReadNumber();
          return Ok(t);
        } else if IsLetter(current) {
          r := ReadKeyword();
          return;
        } else {
          return Ok(Token(TokenEOF, ""));
        }
    }

    method ReadString() returns (t: Token)
      requires Valid() && current == '"'
      modifies this
      ensures Valid()
      ensures (t, idx) == ScanString(input, old(idx))
    {
      var sb: string := "";
      Advance();
      while current != '"' && current != NUL
        invariant Valid() && old(idx) < idx
        invariant Span(input, idx, StringByte) == Span(input, old(idx) + 1, StringByte)
        invariant sb == input[old(idx) + 1..idx]
        decreases |input| - idx
      {
        sb := sb + [current];
        Advance();
      }
      Advance();
      return Token(TokenString, sb);
    }

    method ReadNumber() returns (t: Token)
      requires Valid() && (IsDigit(current) || current == '-')
      modifies this
      ensures Valid()
      ensures (t, idx) == ScanNumber(input, old(idx))
    {
      var start := pos - 1;
      while IsDigit(current) || current == '.' || current == '-'
        invariant Valid() && old(idx) <= idx && start == old(idx)
        invariant Span(input, idx, NumberByte) == Span(input, old(idx), NumberByte)
        decreases |input| - idx
      {
        Advance();
      }
      var value := input[start..pos - 1];
      return Token(TokenNumber, value);
    }

    method ReadKeyword() returns (r: Result<Token>)
      requires Valid() && IsLetter(current)
      modifies this
      ensures Valid()
      ensures (r, idx) == ScanKeyword(input, old(idx))
    {
      var start := pos - 1;
      while IsLetter(current)
        invariant Valid() && old(idx) <= idx && start == old(idx)
        invariant Span(input, idx, Letter) == Span(input, old(idx), Letter)
        decreases |input| - idx
      {
        Advance();
      }
      var value := input[start..pos - 1];
      if value == "true" || value == "false" {
        return Ok(Token(TokenBoolean, value));
      } else if value == "null" {
        return Ok(Token(TokenNull, value));
      }
      return Err(UnexpectedKeyword(value));
    }
  }
}
