/**
 The expression lexer (crates/expressions/src/lexer.rs). All its tests are on ASCII bytes, so the
 model works on characters; `parse` is `parse_number_checked`.
 */
module Lexer {
  import opened Text
  import opened Syntax

  type NumberParser = string -> Option<Number>

  // ------------------------------------------------------------------ what the lexer reads

  predicate IsAsciiWhitespace(c: char) {
    c == ' ' || c == '\t' || c == '\n' || c as int == 0x0C || c == '\r'
  }

  predicate EndsNumber(c: char) {
    IsAsciiWhitespace(c) || c == '[' || c == ']' || c == '(' || c == ')' || c == ',' || c == '!' || c == '<' || c == '>'
    || c == '=' || c == '&' || c == '|'
  }

  /** Whether a `.` after this token starts a number. */
  predicate NumberMayFollow(prev: Option<Token>) {
    match prev
    case None => true
    case Some(t) => t == Comma || t == LParen || t == LBracket || t.Operator? || t == Bang
  }

  predicate IsNumberStart(c: char, prev: Option<Token>) {
    IsDigit(c) || c == '+' || c == '-' || (c == '.' && NumberMayFollow(prev))
  }

  function KeywordOrIdent(word: string): Token {
    if word == "true" then BoolLit(true)
    else if word == "false" then BoolLit(false)
    else if word == "null" then NullLit
    else if word == "NaN" then NumberLit(NaN)
    else if word == "Infinity" then NumberLit(Infinity(false))
    else Ident(word)
  }

  function WordToken(word: string, prev: Option<Token>): Token {
    if prev == Some(Dot) then Ident(word) else KeywordOrIdent(word)
  }

  /** `lex_operator`: the token and how many characters it takes. */
  function OperatorAt(s: string): Result<(Token, nat)>
    requires s != []
  {
    var c := s[0];
    var next := if |s| > 1 then Some(s[1]) else None;
    if c == '=' && next == Some('=') then Ok((Operator(Eq), 2))
    else if c == '!' && next == Some('=') then Ok((Operator(Neq), 2))
    else if c == '<' && next == Some('=') then Ok((Operator(Le), 2))
    else if c == '>' && next == Some('=') then Ok((Operator(Ge), 2))
    else if c == '&' && next == Some('&') then Ok((Operator(And), 2))
    else if c == '|' && next == Some('|') then Ok((Operator(Or), 2))
    else if c == '!' then Ok((Bang, 1))
    else if c == '<' then Ok((Operator(Lt), 1))
    else if c == '>' then Ok((Operator(Gt), 1))
    else if c == '.' then Ok((Dot, 1))
    else if c == '(' then Ok((LParen, 1))
    else if c == ')' then Ok((RParen, 1))
    else if c == '[' then Ok((LBracket, 1))
    else if c == ']' then Ok((RBracket, 1))
    else if c == ',' then Ok((Comma, 1))
    else if c == '*' then Ok((Star, 1))
    else Err(UnexpectedCharacter)
  }

  /** How many leading characters continue a name. */
  function NameLength(s: string): (n: nat)
    ensures n <= |s|
  {
    if s != [] && IsIdentContinue(s[0]) then 1 + NameLength(s[1..]) else 0
  }

  function NumberLength(s: string): (n: nat)
    ensures n <= |s|
  {
    if s != [] && !EndsNumber(s[0]) then 1 + NumberLength(s[1..]) else 0
  }

  /** A string literal past its opening quote: its text, and the length up to and with the closing quote. */
  function StringBody(s: string): (r: Result<(string, nat)>)
    ensures r.Ok? ==> 0 < r.value.1 <= |s|
    decreases |s|
  {
    if s == [] then Err(UnterminatedString)
    else if s[0] != '\'' then Extend([s[0]], 1, StringBody(s[1..]))
    else if |s| > 1 && s[1] == '\'' then Extend(['\''], 2, StringBody(s[2..]))
    else Ok(([], 1))
  }

  function Extend(text: string, n: nat, r: Result<(string, nat)>): Result<(string, nat)> {
    match r
    case Err(e) => Err(e)
    case Ok((more, m)) => Ok((text + more, n + m))
  }

  /** The token at the front of a text that does not start with whitespace, and its length. */
  function TokenAt(s: string, prev: Option<Token>, parse: NumberParser): (r: Result<(Token, nat)>)
    requires s != []
    ensures r.Ok? ==> 0 < r.value.1 <= |s|
  {
    if s[0] == '\'' then
      match StringBody(s[1..])
      case Err(e) => Err(e)
      case Ok((text, n)) => Ok((StringLit(text), n + 1))
    else if IsNumberStart(s[0], prev) then
      match parse(s[..NumberLength(s)])
      case None => Err(InvalidNumber)
      case Some(n) => Ok((NumberLit(n), NumberLength(s)))
    else if IsIdentStart(s[0]) then Ok((WordToken(s[..NameLength(s)], prev), NameLength(s)))
    else OperatorAt(s)
  }

  function Push(t: Token, r: Result<seq<Token>>): Result<seq<Token>> {
    match r
    case Err(e) => Err(e)
    case Ok(ts) => Ok([t] + ts)
  }

  /** The tokens of `s` when the token before it was `prev`. */
  function LexFrom(s: string, prev: Option<Token>, parse: NumberParser): Result<seq<Token>>
    decreases |s|
  {
    if s == [] then Ok([])
    else if IsAsciiWhitespace(s[0]) then LexFrom(s[1..], prev, parse)
    else match TokenAt(s, prev, parse)
      case Err(e) => Err(e)
      case Ok((t, n)) => Push(t, LexFrom(s[n..], Some(t), parse))
  }

  // --------------------------------------------------------------------- the loops

  ghost function StringLeft(s: string, start: nat, i: nat, text: string): Result<(string, nat)>
    requires start <= i <= |s|
  {
    Extend(text, i - start, StringBody(s[i..]))
  }

  method LexString(s: string, start: nat) returns (r: Result<string>, i: nat)
    requires start <= |s|
    ensures match StringBody(s[start..])
            case Err(e) => r == Err(e)
            case Ok((text, n)) => r == Ok(text) && i == start + n
  {
    var text := [];
    ghost var whole := StringBody(s[start..]);
    ExtendNothing(whole);
    i := start;
    while i < |s|
      invariant start <= i <= |s|
      invariant whole == StringLeft(s, start, i, text)
      decreases |s| - i
    {
      if s[i] != '\'' {
        PlainStep(s, start, i, text);
        text := text + [s[i]];
        i := i + 1;
      } else if i + 1 < |s| && s[i + 1] == '\'' {
        QuoteStep(s, start, i, text);
        text := text + ['\''];
        i := i + 2;
      } else {
        EndStep(s, start, i, text);
        return Ok(text), i + 1;
      }
    }
    return Err(UnterminatedString), i;
  }

  lemma PlainStep(s: string, start: nat, i: nat, text: string)
    requires start <= i < |s| && s[i] != '\''
    ensures StringLeft(s, start, i, text) == StringLeft(s, start, i + 1, text + [s[i]])
  {
    assert s[i..][1..] == s[i + 1..];
    ExtendTwice(text, i - start, [s[i]], 1, StringBody(s[i + 1..]));
  }

  lemma QuoteStep(s: string, start: nat, i: nat, text: string)
    requires start <= i && i + 1 < |s| && s[i] == '\'' && s[i + 1] == '\''
    ensures StringLeft(s, start, i, text) == StringLeft(s, start, i + 2, text + ['\''])
  {
    assert s[i..][1] == s[i + 1] && s[i..][2..] == s[i + 2..];
    ExtendTwice(text, i - start, ['\''], 2, StringBody(s[i + 2..]));
  }

  lemma EndStep(s: string, start: nat, i: nat, text: string)
    requires start <= i < |s| && s[i] == '\'' && !(i + 1 < |s| && s[i + 1] == '\'')
    ensures StringLeft(s, start, i, text) == Ok((text, i + 1 - start))
  {
    assert |s[i..]| > 1 ==> s[i..][1] == s[i + 1];
    assert text + [] == text;
  }

  lemma ExtendNothing(r: Result<(string, nat)>)
    ensures Extend([], 0, r) == r
  {
    if r.Ok? {
      assert [] + r.value.0 == r.value.0;
    }
  }

  lemma ExtendTwice(a: string, n: nat, b: string, m: nat, r: Result<(string, nat)>)
    ensures Extend(a, n, Extend(b, m, r)) == Extend(a + b, n + m, r)
  {
    if r.Ok? {
      ConcatAssoc(a, b, r.value.0);
    }
  }

  method LexNumber(s: string, start: nat, parse: NumberParser) returns (r: Result<Number>, i: nat)
    requires start <= |s|
    ensures i == start + NumberLength(s[start..])
    ensures r == match parse(s[start..i]) case None => Err(InvalidNumber) case Some(n) => Ok(n)
  {
    i := start;
    while i < |s| && !EndsNumber(s[i])
      invariant start <= i <= |s|
      invariant NumberLength(s[start..]) == i - start + NumberLength(s[i..])
    {
      assert s[i..][1..] == s[i + 1..];
      i := i + 1;
    }
    match parse(s[start..i])
    case None => r := Err(InvalidNumber);
    case Some(n) => r := Ok(n);
  }

  method LexIdent(s: string, start: nat) returns (word: string, i: nat)
    requires start <= |s|
    ensures i == start + NameLength(s[start..]) && word == s[start..i]
  {
    i := start;
    while i < |s| && IsIdentContinue(s[i])
      invariant start <= i <= |s|
      invariant NameLength(s[start..]) == i - start + NameLength(s[i..])
    {
      assert s[i..][1..] == s[i + 1..];
      i := i + 1;
    }
    word := s[start..i];
  }

  function Last(tokens: seq<Token>): Option<Token> {
    if tokens == [] then None else Some(tokens[|tokens| - 1])
  }

  function PushAll(tokens: seq<Token>, r: Result<seq<Token>>): Result<seq<Token>> {
    match r
    case Err(e) => Err(e)
    case Ok(more) => Ok(tokens + more)
  }

  method NextToken(s: string, start: nat, prev: Option<Token>, parse: NumberParser) returns (r: Result<Token>, i: nat)
    requires start < |s|
    ensures start <= i
    ensures match TokenAt(s[start..], prev, parse)
            case Err(e) => r == Err(e)
            case Ok((t, n)) => r == Ok(t) && i == start + n
  {
    assert s[start..][1..] == s[start + 1..];
    if s[start] == '\'' {
      var text, after := LexString(s, start + 1);
      if text.Err? {
        return Err(text.error), start;
      }
      return Ok(StringLit(text.value)), after;
    } else if IsNumberStart(s[start], prev) {
      var n, after := LexNumber(s, start, parse);
      assert s[start..][..after - start] == s[start..after];
      if n.Err? {
        return Err(n.error), start;
      }
      return Ok(NumberLit(n.value)), after;
    } else if IsIdentStart(s[start]) {
      var word, after := LexIdent(s, start);
      assert s[start..][..after - start] == s[start..after];
      return Ok(WordToken(word, prev)), after;
    } else {
      var tok := OperatorAt(s[start..]);
      if tok.Err? {
        return Err(tok.error), start;
      }
      return Ok(tok.value.0), start + tok.value.1;
    }
  }

  /** What lexing gives once `tokens` have been read and `i` characters consumed. */
  ghost function Remaining(s: string, i: nat, tokens: seq<Token>, parse: NumberParser): Result<seq<Token>>
    requires i <= |s|
  {
    PushAll(tokens, LexFrom(s[i..], Last(tokens), parse))
  }

  method LexStep(s: string, i: nat, tokens: seq<Token>, parse: NumberParser) returns (r: Result<seq<Token>>, after: nat)
    requires i < |s|
    ensures r.Err? ==> Remaining(s, i, tokens, parse) == Err(r.error)
    ensures r.Ok? ==> i < after <= |s| && Remaining(s, i, tokens, parse) == Remaining(s, after, r.value, parse)
  {
    if IsAsciiWhitespace(s[i]) {
      return Ok(tokens), i + 1;
    }
    TokenStep(s, i, tokens, parse);
    var tok;
    tok, after := NextToken(s, i, Last(tokens), parse);
    match tok
    case Err(e) => r := Err(e);
    case Ok(t) => r := Ok(tokens + [t]);
  }

  /** `lex`. */
  method Lex(input: string, parse: NumberParser) returns (r: Result<seq<Token>>)
    ensures r == LexFrom(input, None, parse)
  {
    r := Ok([]);
    var i: nat := 0;
    assert input[0..] == input;
    PushNothing(LexFrom(input, None, parse));
    ghost var whole := Remaining(input, 0, [], parse);
    while i < |input| && r.Ok?
      invariant 0 <= i <= |input|
      invariant r.Ok? ==> whole == Remaining(input, i, r.value, parse)
      invariant r.Err? ==> whole == Err(r.error)
      decreases r.Ok?, |input| - i
    {
      var after;
      r, after := LexStep(input, i, r.value, parse);
      if r.Ok? {
        i := after;
      }
    }
    if r.Ok? {
      assert r.value + [] == r.value;
    }
  }

  lemma PushNothing(r: Result<seq<Token>>)
    ensures PushAll([], r) == r
  {
    if r.Ok? {
      assert [] + r.value == r.value;
    }
  }

  lemma TokenStep(s: string, i: nat, tokens: seq<Token>, parse: NumberParser)
    requires i < |s| && !IsAsciiWhitespace(s[i])
    ensures match TokenAt(s[i..], Last(tokens), parse)
            case Err(e) => PushAll(tokens, LexFrom(s[i..], Last(tokens), parse)) == Err(e)
            case Ok((t, n)) => PushAll(tokens, LexFrom(s[i..], Last(tokens), parse))
                                 == PushAll(tokens + [t], LexFrom(s[i + n..], Last(tokens + [t]), parse))
  {
    match TokenAt(s[i..], Last(tokens), parse)
    case Err(_) =>
    case Ok((t, n)) =>
      assert s[i..][n..] == s[i + n..];
      var rest := LexFrom(s[i + n..], Some(t), parse);
      if rest.Ok? {
        assert tokens + ([t] + rest.value) == (tokens + [t]) + rest.value;
      }
  }
}
