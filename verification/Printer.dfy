/**
 Printing an expression tree as text (crates/expressions/src/display.rs), and the tokens the tree
 stands for. `number` renders a numeric literal.
 */
module Printer {
  import opened Text
  import opened Syntax

  const TRUE: string := "true"
  const FALSE: string := "false"
  const NULL: string := "null"

  function Doubled(text: string): string {
    ReplaceChar(text, '\'', "\'\'")
  }

  /** `literal`. */
  function PrintLiteral(value: Value, number: Number -> string): string {
    match value
    case Str(text) => "\'" + (Doubled(text) + "\'")
    case Null => NULL
    case Bool(b) => if b then TRUE else FALSE
    case Num(n) => number(n)
    case Array(_, _, _) => "Array"
    case Object(_, _) => "Object"
  }

  function OperatorText(op: BinaryOperator): string {
    match op
    case Or => "||"
    case And => "&&"
    case Eq => "=="
    case Neq => "!="
    case Lt => "<"
    case Le => "<="
    case Gt => ">"
    case Ge => ">="
  }

  /** An index printed as a property: a literal string that is a legal name. */
  predicate PrintsAsProperty(index: Expr) {
    index.Literal? && index.value.Str? && IsLegalName(index.value.text)
  }

  /** `to_expression`. */
  function Print(e: Expr, number: Number -> string): string
    decreases e
  {
    match e
    case Literal(value) => PrintLiteral(value, number)
    case Context(name) => name
    case PropertyAccess(base, property) => Print(base, number) + "." + property
    case IndexAccess(base, index) =>
      if PrintsAsProperty(index) then Print(base, number) + "." + index.value.text
      else Print(base, number) + "[" + Print(index, number) + "]"
    case WildcardAccess(base) => Print(base, number) + ".*"
    case FunctionCall(name, args) => name + "(" + Join(PrintAll(args, number), ", ") + ")"
    case Not(operand) => "!" + Print(operand, number)
    case BinaryOp(op, left, right) =>
      "(" + Print(left, number) + " " + OperatorText(op) + " " + Print(right, number) + ")"
  }

  function PrintAll(args: seq<Expr>, number: Number -> string): (texts: seq<string>)
    ensures |texts| == |args|
    decreases args
  {
    if args == [] then [] else [Print(args[0], number)] + PrintAll(args[1..], number)
  }

  // ------------------------------------------------------------------- the tree's tokens

  /** The words the lexer never reads as names. */
  predicate IsReserved(name: string) {
    name == TRUE || name == FALSE || name == NULL || name == "NaN" || name == "Infinity"
  }

  predicate IsPlainName(name: string) {
    IsLegalName(name) && !IsReserved(name)
  }

  /** Legal names throughout, and no number, array or object literals. */
  predicate Printable(e: Expr)
    decreases e
  {
    match e
    case Literal(value) => value.Str? || value.Null? || value.Bool?
    case Context(name) => IsPlainName(name)
    case PropertyAccess(base, property) => Printable(base) && IsLegalName(property)
    case IndexAccess(base, index) => Printable(base) && Printable(index)
    case WildcardAccess(base) => Printable(base)
    case FunctionCall(name, args) => IsPlainName(name) && AllPrintable(args)
    case Not(operand) => Printable(operand)
    case BinaryOp(_, left, right) => Printable(left) && Printable(right)
  }

  predicate AllPrintable(args: seq<Expr>)
    decreases args
  {
    args == [] || (Printable(args[0]) && AllPrintable(args[1..]))
  }

  function LiteralToken(value: Value): Token {
    match value
    case Str(text) => StringLit(text)
    case Bool(b) => BoolLit(b)
    case Num(n) => NumberLit(n)
    case _ => NullLit
  }

  /** The tokens of `e`, then `rest`. */
  function TokensOnto(e: Expr, rest: seq<Token>): seq<Token>
    decreases e
  {
    match e
    case Literal(value) => [LiteralToken(value)] + rest
    case Context(name) => [Ident(name)] + rest
    case PropertyAccess(base, property) => TokensOnto(base, [Dot] + ([Ident(property)] + rest))
    case IndexAccess(base, index) =>
      if PrintsAsProperty(index) then TokensOnto(base, [Dot] + ([Ident(index.value.text)] + rest))
      else TokensOnto(base, [LBracket] + TokensOnto(index, [RBracket] + rest))
    case WildcardAccess(base) => TokensOnto(base, [Dot] + ([Star] + rest))
    case FunctionCall(name, args) => [Ident(name)] + ([LParen] + ArgTokensOnto(args, [RParen] + rest))
    case Not(operand) => [Bang] + TokensOnto(operand, rest)
    case BinaryOp(op, left, right) =>
      [LParen] + TokensOnto(left, [Operator(op)] + TokensOnto(right, [RParen] + rest))
  }

  function ArgTokensOnto(args: seq<Expr>, rest: seq<Token>): seq<Token>
    decreases args
  {
    if args == [] then rest
    else if |args| == 1 then TokensOnto(args[0], rest)
    else TokensOnto(args[0], [Comma] + ArgTokensOnto(args[1..], rest))
  }

  function TokensOf(e: Expr): seq<Token> {
    TokensOnto(e, [])
  }

  // ------------------------------------------------------------ printing onto a suffix

  /** The printed text of `e` followed by `rest`, grouped to the right. */
  function PrintOnto(e: Expr, rest: string, number: Number -> string): string
    decreases e
  {
    match e
    case Literal(value) => PrintLiteral(value, number) + rest
    case Context(name) => name + rest
    case PropertyAccess(base, property) => PrintOnto(base, "." + (property + rest), number)
    case IndexAccess(base, index) =>
      if PrintsAsProperty(index) then PrintOnto(base, "." + (index.value.text + rest), number)
      else PrintOnto(base, "[" + PrintOnto(index, "]" + rest, number), number)
    case WildcardAccess(base) => PrintOnto(base, "." + ("*" + rest), number)
    case FunctionCall(name, args) => name + ("(" + ArgsOnto(args, ")" + rest, number))
    case Not(operand) => "!" + PrintOnto(operand, rest, number)
    case BinaryOp(op, left, right) =>
      "(" + PrintOnto(left, " " + (OperatorText(op) + (" " + PrintOnto(right, ")" + rest, number))), number)
  }

  function ArgsOnto(args: seq<Expr>, rest: string, number: Number -> string): string
    decreases args
  {
    if args == [] then rest
    else if |args| == 1 then PrintOnto(args[0], rest, number)
    else PrintOnto(args[0], "," + (" " + ArgsOnto(args[1..], rest, number)), number)
  }

  lemma Right4(a: string, b: string, c: string, d: string)
    ensures a + b + c + d == a + (b + (c + d))
  {
  }

  lemma Right8(a: string, b: string, c: string, d: string, e: string, f: string, g: string, h: string)
    ensures a + b + c + d + e + f + g + h == a + (b + (c + (d + (e + (f + (g + h))))))
  {
  }

  lemma {:induction false} PrintOntoIsPrint(e: Expr, rest: string, number: Number -> string)
    ensures PrintOnto(e, rest, number) == Print(e, number) + rest
    decreases e, 1
  {
    match e
    case Literal(_) =>
    case Context(_) =>
    case PropertyAccess(base, property) => DotOnto(base, property, rest, number);
    case IndexAccess(base, index) =>
      if PrintsAsProperty(index) {
        DotOnto(base, index.value.text, rest, number);
      } else {
        PrintOntoIsPrint(index, "]" + rest, number);
        PrintOntoIsPrint(base, "[" + PrintOnto(index, "]" + rest, number), number);
        Right4(Print(base, number), "[", Print(index, number) + "]", rest);
        Right4(Print(base, number), "[", Print(index, number), "]");
        ConcatAssoc(Print(index, number), "]", rest);
      }
    case WildcardAccess(base) =>
      PrintOntoIsPrint(base, "." + ("*" + rest), number);
      ConcatAssoc(Print(base, number), ".*", rest);
    case FunctionCall(name, args) =>
      ArgsOntoIsJoin(args, ")" + rest, number);
      var inner := Join(PrintAll(args, number), ", ");
      Right4(name, "(", inner + ")", rest);
      Right4(name, "(", inner, ")");
      ConcatAssoc(inner, ")", rest);
    case Not(operand) =>
      PrintOntoIsPrint(operand, rest, number);
      ConcatAssoc("!", Print(operand, number), rest);
    case BinaryOp(op, left, right) => BinaryOnto(op, left, right, rest, number);
  }

  lemma {:induction false} DotOnto(base: Expr, property: string, rest: string, number: Number -> string)
    ensures PrintOnto(base, "." + (property + rest), number) == (Print(base, number) + "." + property) + rest
    decreases base, 2
  {
    PrintOntoIsPrint(base, "." + (property + rest), number);
    Right4(Print(base, number), ".", property, rest);
  }

  lemma {:induction false} BinaryOnto(op: BinaryOperator, left: Expr, right: Expr, rest: string,
                                      number: Number -> string)
    ensures PrintOnto(BinaryOp(op, left, right), rest, number) == Print(BinaryOp(op, left, right), number) + rest
    decreases BinaryOp(op, left, right), 0
  {
    PrintOntoIsPrint(right, ")" + rest, number);
    PrintOntoIsPrint(left, " " + (OperatorText(op) + (" " + PrintOnto(right, ")" + rest, number))), number);
    Right8("(", Print(left, number), " ", OperatorText(op), " ", Print(right, number), ")", rest);
  }

  lemma {:induction false} ArgsOntoIsJoin(args: seq<Expr>, rest: string, number: Number -> string)
    ensures ArgsOnto(args, rest, number) == Join(PrintAll(args, number), ", ") + rest
    decreases args, 1
  {
    if args != [] {
      var texts := PrintAll(args, number);
      if |args| == 1 {
        PrintOntoIsPrint(args[0], rest, number);
      } else {
        assert texts[1..] == PrintAll(args[1..], number);
        ArgsOntoIsJoin(args[1..], rest, number);
        PrintOntoIsPrint(args[0], "," + (" " + ArgsOnto(args[1..], rest, number)), number);
        Right4(texts[0], ", ", Join(texts[1..], ", "), rest);
      }
    }
  }
}
