/** Lexing printed text gives back the tree's tokens (crates/expressions/src: display.rs, lexer.rs). */
module PrintedTokens {
  import opened Text
  import opened Syntax
  import opened Printer
  import opened Lexer

  // --------------------------------------------------------------------- one lexeme

  /** A text after which a name or a string literal cannot go on. */
  predicate Boundary(rest: string) {
    rest == [] || (!IsIdentContinue(rest[0]) && rest[0] != '\'')
  }

  /** The one-character tokens that no character after them changes. */
  function Symbol(c: char): Option<Token> {
    if c == '(' then Some(LParen) else if c == ')' then Some(RParen)
    else if c == '[' then Some(LBracket) else if c == ']' then Some(RBracket)
    else if c == ',' then Some(Comma) else if c == '*' then Some(Star)
    else None
  }

  lemma LexSymbol(c: char, rest: string, prev: Option<Token>, parse: NumberParser)
    requires Symbol(c).Some?
    ensures LexFrom([c] + rest, prev, parse) == Push(Symbol(c).value, LexFrom(rest, Symbol(c), parse))
  {
  }

  lemma LexBang(rest: string, prev: Option<Token>, parse: NumberParser)
    requires rest == [] || rest[0] != '='
    ensures LexFrom("!" + rest, prev, parse) == Push(Bang, LexFrom(rest, Some(Bang), parse))
  {
  }

  lemma LexOperator(op: BinaryOperator, rest: string, prev: Option<Token>, parse: NumberParser)
    ensures LexFrom(OperatorText(op) + (" " + rest), prev, parse)
         == Push(Operator(op), LexFrom(rest, Some(Operator(op)), parse))
  {
  }

  lemma {:induction false} NameLengthOf(name: string, rest: string)
    requires forall i :: 0 <= i < |name| ==> IsIdentContinue(name[i])
    requires rest == [] || !IsIdentContinue(rest[0])
    ensures NameLength(name + rest) == |name|
    decreases |name|
  {
    if name == [] {
      assert name + rest == rest;
    } else {
      assert (name + rest)[1..] == name[1..] + rest;
      NameLengthOf(name[1..], rest);
    }
  }

  lemma LexName(name: string, rest: string, prev: Option<Token>, parse: NumberParser)
    requires IsLegalName(name) && Boundary(rest)
    ensures LexFrom(name + rest, prev, parse)
         == Push(WordToken(name, prev), LexFrom(rest, Some(WordToken(name, prev)), parse))
  {
    var s := name + rest;
    assert s[0] == name[0];
    NameLengthOf(name, rest);
    assert s[..|name|] == name;
  }

  lemma {:induction false} StringBodyOf(text: string, rest: string)
    requires rest == [] || rest[0] != '\''
    ensures StringBody(Doubled(text) + ("\'" + rest)) == Ok((text, |Doubled(text)| + 1))
    decreases |text|
  {
    var s := Doubled(text) + ("\'" + rest);
    if text == [] {
      assert s == "\'" + rest;
      assert |s| > 1 ==> s[1] == rest[0];
    } else {
      StringBodyOf(text[1..], rest);
      var first := if text[0] == '\'' then "\'\'" else [text[0]];
      ConcatAssoc(first, Doubled(text[1..]), "\'" + rest);
      assert s[0] == first[0] && s[|first|..] == Doubled(text[1..]) + ("\'" + rest);
      assert |first| == 2 ==> s[1] == '\'';
      assert [text[0]] + text[1..] == text;
    }
  }

  lemma LexQuoted(text: string, rest: string, prev: Option<Token>, parse: NumberParser)
    requires rest == [] || rest[0] != '\''
    ensures LexFrom(PrintLiteral(Str(text), n => []) + rest, prev, parse)
         == Push(StringLit(text), LexFrom(rest, Some(StringLit(text)), parse))
  {
    var quoted := "\'" + (Doubled(text) + "\'");
    var s := quoted + rest;
    StringBodyOf(text, rest);
    assert s[0] == '\'' && s[1..] == Doubled(text) + ("\'" + rest);
  }

  // ------------------------------------------------------------------- whole trees

  /** The last token a tree prints. */
  function LastToken(e: Expr): Token
    decreases e
  {
    match e
    case Literal(value) => LiteralToken(value)
    case Context(name) => Ident(name)
    case PropertyAccess(_, property) => Ident(property)
    case IndexAccess(_, index) => if PrintsAsProperty(index) then Ident(index.value.text) else RBracket
    case WildcardAccess(_) => Star
    case FunctionCall(_, _) => RParen
    case Not(operand) => LastToken(operand)
    case BinaryOp(_, _, _) => RParen
  }

  lemma {:induction false} NoNumberAfter(e: Expr)
    ensures !NumberMayFollow(Some(LastToken(e)))
    decreases e
  {
    if e.Not? {
      NoNumberAfter(e.operand);
    }
  }

  lemma {:induction false} FirstCharacter(e: Expr, rest: string, number: Number -> string)
    requires Printable(e)
    ensures PrintOnto(e, rest, number) != [] && PrintOnto(e, rest, number)[0] != '='
    decreases e
  {
    match e
    case Literal(_) =>
    case Context(_) =>
    case PropertyAccess(base, property) => FirstCharacter(base, "." + (property + rest), number);
    case IndexAccess(base, index) =>
      FirstCharacter(base, if PrintsAsProperty(index) then "." + (index.value.text + rest)
                           else "[" + PrintOnto(index, "]" + rest, number), number);
    case WildcardAccess(base) => FirstCharacter(base, "." + ("*" + rest), number);
    case FunctionCall(_, _) =>
    case Not(_) =>
    case BinaryOp(_, _, _) =>
  }

  function Onto(e: Expr, r: Result<seq<Token>>): Result<seq<Token>> {
    match r
    case Err(f) => Err(f)
    case Ok(ts) => Ok(TokensOnto(e, ts))
  }

  function ArgsThen(args: seq<Expr>, r: Result<seq<Token>>): Result<seq<Token>> {
    match r
    case Err(f) => Err(f)
    case Ok(ts) => Ok(ArgTokensOnto(args, ts))
  }

  /** Names stay names, and the three printable literals their own tokens. */
  lemma LexLiteral(value: Value, rest: string, prev: Option<Token>, parse: NumberParser, number: Number -> string)
    requires value.Str? || value.Null? || value.Bool?
    requires prev != Some(Dot) && Boundary(rest)
    ensures LexFrom(PrintLiteral(value, number) + rest, prev, parse)
         == Push(LiteralToken(value), LexFrom(rest, Some(LiteralToken(value)), parse))
  {
    match value
    case Str(text) => LexQuoted(text, rest, prev, parse);
    case Null => LexName(NULL, rest, prev, parse);
    case Bool(b) => if b { LexName(TRUE, rest, prev, parse); } else { LexName(FALSE, rest, prev, parse); }
    case Num(_) =>
    case Array(_, _, _) =>
    case Object(_, _) =>
  }

  lemma LexDotName(name: string, rest: string, prev: Option<Token>, parse: NumberParser)
    requires IsLegalName(name) && Boundary(rest) && !NumberMayFollow(prev)
    ensures LexFrom("." + (name + rest), prev, parse)
         == Push(Dot, Push(Ident(name), LexFrom(rest, Some(Ident(name)), parse)))
  {
    LexName(name, rest, Some(Dot), parse);
  }

  lemma {:induction false} Lexed(e: Expr, rest: string, prev: Option<Token>, parse: NumberParser,
                                 number: Number -> string)
    requires Printable(e) && prev != Some(Dot) && Boundary(rest)
    ensures LexFrom(PrintOnto(e, rest, number), prev, parse) == Onto(e, LexFrom(rest, Some(LastToken(e)), parse))
    decreases e, 1
  {
    match e
    case Literal(value) => LexLiteral(value, rest, prev, parse, number);
    case Context(name) => LexName(name, rest, prev, parse);
    case PropertyAccess(base, property) => LexedDot(base, property, rest, prev, parse, number);
    case IndexAccess(base, index) =>
      if PrintsAsProperty(index) {
        LexedDot(base, index.value.text, rest, prev, parse, number);
      } else {
        LexedIndex(base, index, rest, prev, parse, number);
      }
    case WildcardAccess(base) => LexedStar(base, rest, prev, parse, number);
    case FunctionCall(name, args) => LexedCall(name, args, rest, prev, parse, number);
    case Not(operand) =>
      FirstCharacter(operand, rest, number);
      LexBang(PrintOnto(operand, rest, number), prev, parse);
      Lexed(operand, rest, Some(Bang), parse, number);
    case BinaryOp(op, left, right) => LexedBinary(op, left, right, rest, prev, parse, number);
  }

  lemma {:induction false} LexedDot(base: Expr, name: string, rest: string, prev: Option<Token>, parse: NumberParser,
                                    number: Number -> string)
    requires Printable(base) && IsLegalName(name) && prev != Some(Dot) && Boundary(rest)
    ensures LexFrom(PrintOnto(base, "." + (name + rest), number), prev, parse)
         == Onto(base, Push(Dot, Push(Ident(name), LexFrom(rest, Some(Ident(name)), parse))))
    decreases base, 2
  {
    Lexed(base, "." + (name + rest), prev, parse, number);
    NoNumberAfter(base);
    LexDotName(name, rest, Some(LastToken(base)), parse);
  }

  lemma {:induction false} LexedIndex(base: Expr, index: Expr, rest: string, prev: Option<Token>, parse: NumberParser,
                                      number: Number -> string)
    requires Printable(base) && Printable(index) && prev != Some(Dot) && Boundary(rest)
    ensures LexFrom(PrintOnto(base, "[" + PrintOnto(index, "]" + rest, number), number), prev, parse)
         == Onto(base, Push(LBracket, Onto(index, Push(RBracket, LexFrom(rest, Some(RBracket), parse)))))
    decreases IndexAccess(base, index), 0
  {
    Lexed(base, "[" + PrintOnto(index, "]" + rest, number), prev, parse, number);
    LexedBracket(index, rest, Some(LastToken(base)), parse, number);
  }

  lemma {:induction false} LexedBracket(index: Expr, rest: string, prev: Option<Token>, parse: NumberParser,
                                        number: Number -> string)
    requires Printable(index)
    ensures LexFrom("[" + PrintOnto(index, "]" + rest, number), prev, parse)
         == Push(LBracket, Onto(index, Push(RBracket, LexFrom(rest, Some(RBracket), parse))))
    decreases index, 2
  {
    LexSymbol('[', PrintOnto(index, "]" + rest, number), prev, parse);
    Lexed(index, "]" + rest, Some(LBracket), parse, number);
    LexSymbol(']', rest, Some(LastToken(index)), parse);
  }

  lemma LexDotStar(rest: string, prev: Option<Token>, parse: NumberParser)
    requires !NumberMayFollow(prev)
    ensures LexFrom("." + ("*" + rest), prev, parse) == Push(Dot, Push(Star, LexFrom(rest, Some(Star), parse)))
  {
    var s := "." + ("*" + rest);
    assert s[0] == '.' && s[1..] == "*" + rest;
    LexSymbol('*', rest, Some(Dot), parse);
  }

  lemma {:induction false} LexedStar(base: Expr, rest: string, prev: Option<Token>, parse: NumberParser,
                                     number: Number -> string)
    requires Printable(base) && prev != Some(Dot)
    ensures LexFrom(PrintOnto(base, "." + ("*" + rest), number), prev, parse)
         == Onto(base, Push(Dot, Push(Star, LexFrom(rest, Some(Star), parse))))
    decreases base, 2
  {
    Lexed(base, "." + ("*" + rest), prev, parse, number);
    NoNumberAfter(base);
    LexDotStar(rest, Some(LastToken(base)), parse);
  }

  lemma {:induction false} LexedCall(name: string, args: seq<Expr>, rest: string, prev: Option<Token>,
                                     parse: NumberParser, number: Number -> string)
    requires IsPlainName(name) && AllPrintable(args) && prev != Some(Dot) && Boundary(rest)
    ensures LexFrom(PrintOnto(FunctionCall(name, args), rest, number), prev, parse)
         == Onto(FunctionCall(name, args), LexFrom(rest, Some(RParen), parse))
    decreases FunctionCall(name, args), 0
  {
    LexName(name, "(" + ArgsOnto(args, ")" + rest, number), prev, parse);
    LexSymbol('(', ArgsOnto(args, ")" + rest, number), Some(Ident(name)), parse);
    LexedArgs(args, rest, Some(LParen), parse, number);
  }

  lemma {:induction false} LexedBinary(op: BinaryOperator, left: Expr, right: Expr, rest: string, prev: Option<Token>,
                                       parse: NumberParser, number: Number -> string)
    requires Printable(left) && Printable(right) && prev != Some(Dot) && Boundary(rest)
    ensures LexFrom("(" + PrintOnto(left, RightOnto(op, right, rest, number), number), prev, parse)
         == Push(LParen, Onto(left, Push(Operator(op), Onto(right, Push(RParen, LexFrom(rest, Some(RParen), parse))))))
    decreases BinaryOp(op, left, right), 0
  {
    LexedLeft(left, RightOnto(op, right, rest, number), prev, parse, number);
    LexedRight(op, right, rest, Some(LastToken(left)), parse, number);
  }

  /** A binary operation from just past its left operand. */
  function RightOnto(op: BinaryOperator, right: Expr, rest: string, number: Number -> string): string {
    " " + (OperatorText(op) + (" " + PrintOnto(right, ")" + rest, number)))
  }

  lemma {:induction false} LexedLeft(left: Expr, rest: string, prev: Option<Token>, parse: NumberParser,
                                     number: Number -> string)
    requires Printable(left) && Boundary(rest)
    ensures LexFrom("(" + PrintOnto(left, rest, number), prev, parse)
         == Push(LParen, Onto(left, LexFrom(rest, Some(LastToken(left)), parse)))
    decreases left, 2
  {
    LexSymbol('(', PrintOnto(left, rest, number), prev, parse);
    Lexed(left, rest, Some(LParen), parse, number);
  }

  lemma {:induction false} LexedRight(op: BinaryOperator, right: Expr, rest: string, prev: Option<Token>,
                                      parse: NumberParser, number: Number -> string)
    requires Printable(right)
    ensures LexFrom(RightOnto(op, right, rest, number), prev, parse)
         == Push(Operator(op), Onto(right, Push(RParen, LexFrom(rest, Some(RParen), parse))))
    decreases right, 2
  {
    var shown := PrintOnto(right, ")" + rest, number);
    LexOperator(op, shown, prev, parse);
    Lexed(right, ")" + rest, Some(Operator(op)), parse, number);
    LexSymbol(')', rest, Some(LastToken(right)), parse);
  }

  lemma {:induction false} LexedArgs(args: seq<Expr>, rest: string, prev: Option<Token>, parse: NumberParser,
                                     number: Number -> string)
    requires AllPrintable(args) && prev != Some(Dot)
    ensures LexFrom(ArgsOnto(args, ")" + rest, number), prev, parse)
         == ArgsThen(args, Push(RParen, LexFrom(rest, Some(RParen), parse)))
    decreases args, 1
  {
    if args == [] {
      LexSymbol(')', rest, prev, parse);
    } else if |args| == 1 {
      Lexed(args[0], ")" + rest, prev, parse, number);
      LexSymbol(')', rest, Some(LastToken(args[0])), parse);
    } else {
      var more := ArgsOnto(args[1..], ")" + rest, number);
      Lexed(args[0], "," + (" " + more), prev, parse, number);
      LexSymbol(',', " " + more, Some(LastToken(args[0])), parse);
      LexedArgs(args[1..], rest, Some(Comma), parse, number);
    }
  }

  /** The printer and the lexer agree: the printed text lexes to exactly the tree's tokens. */
  lemma PrintedTextLexes(e: Expr, parse: NumberParser, number: Number -> string)
    requires Printable(e)
    ensures LexFrom(Print(e, number), None, parse) == Ok(TokensOf(e))
  {
    PrintOntoIsPrint(e, [], number);
    assert Print(e, number) + [] == Print(e, number);
    Lexed(e, [], None, parse, number);
  }
}
