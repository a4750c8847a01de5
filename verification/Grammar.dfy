/**
 The expression grammar as functions on the tokens left to read (crates/expressions/src/parser):
 what the recursive-descent parser returns, and which tokens it leaves.
 */
module Grammar {
  import opened Syntax

  type Parsed = Result<(Expr, seq<Token>)>

  /** How tightly an operator binds: `||`, `&&`, equality, comparison. */
  function LevelOf(op: BinaryOperator): nat {
    match op
    case Or => 0
    case And => 1
    case Eq => 2
    case Neq => 2
    case _ => 3
  }

  const UNARY: nat := 4

  predicate AtLevel(level: nat, ts: seq<Token>) {
    ts != [] && ts[0].Operator? && LevelOf(ts[0].op) == level
  }

  predicate Starts(ts: seq<Token>, t: Token) {
    ts != [] && ts[0] == t
  }

  predicate StartsAccess(ts: seq<Token>) {
    Starts(ts, Dot) || Starts(ts, LBracket)
  }

  predicate IsLiteralToken(t: Token) {
    t.NullLit? || t.BoolLit? || t.NumberLit? || t.StringLit?
  }

  predicate Shorter(r: Parsed, ts: seq<Token>) {
    r.Ok? ==> |r.value.1| < |ts|
  }

  function Expect(t: Token, r: Parsed): (next: Parsed)
    ensures next.Ok? ==> r.Ok? && r.value.1 == [t] + next.value.1 && next.value.0 == r.value.0
  {
    match r
    case Err(f) => Err(f)
    case Ok((e, rest)) => if Starts(rest, t) then Ok((e, rest[1..])) else Err(UnexpectedToken)
  }

  /** One precedence level: `parse_or`, `parse_and`, `parse_equality`, `parse_comparison`, then unary. */
  function ParseLevel(level: nat, ts: seq<Token>): (r: Parsed)
    requires level <= UNARY
    ensures Shorter(r, ts)
    decreases |ts|, 10 - level
  {
    if level == UNARY then ParseUnary(ts)
    else match ParseLevel(level + 1, ts)
      case Err(f) => Err(f)
      case Ok((left, rest)) => BinaryTail(level, left, rest)
  }

  /** The loop of one level: operands joined to the left. */
  function BinaryTail(level: nat, left: Expr, ts: seq<Token>): (r: Parsed)
    requires level < UNARY
    ensures r.Ok? ==> |r.value.1| <= |ts|
    decreases |ts|, 0
  {
    if !AtLevel(level, ts) then Ok((left, ts))
    else match ParseLevel(level + 1, ts[1..])
      case Err(f) => Err(f)
      case Ok((right, rest)) => BinaryTail(level, BinaryOp(ts[0].op, left, right), rest)
  }

  function MapNot(r: Parsed): Parsed {
    match r
    case Err(f) => Err(f)
    case Ok((e, rest)) => Ok((Not(e), rest))
  }

  function ParseUnary(ts: seq<Token>): (r: Parsed)
    ensures Shorter(r, ts)
    decreases |ts|, 5
  {
    if Starts(ts, Bang) then MapNot(ParseUnary(ts[1..])) else ParsePostfix(ts)
  }

  function ParsePostfix(ts: seq<Token>): (r: Parsed)
    ensures Shorter(r, ts)
    decreases |ts|, 4
  {
    match ParsePrimary(ts)
    case Err(f) => Err(f)
    case Ok((e, rest)) =>
      if IsLiteralToken(ts[0]) && StartsAccess(rest) then Err(LiteralIndexed) else PostfixTail(e, rest)
  }

  /** The loop over `.name`, `.*`, `[index]` and `[*]`. */
  function PostfixTail(e: Expr, ts: seq<Token>): (r: Parsed)
    ensures r.Ok? ==> |r.value.1| <= |ts|
    decreases |ts|, 0
  {
    if Starts(ts, Dot) then
      if Starts(ts[1..], Star) then PostfixTail(WildcardAccess(e), ts[2..])
      else if |ts| > 1 && ts[1].Ident? then PostfixTail(PropertyAccess(e, ts[1].name), ts[2..])
      else Err(UnexpectedToken)
    else if Starts(ts, LBracket) then
      if Starts(ts[1..], Star) then
        if Starts(ts[2..], RBracket) then PostfixTail(WildcardAccess(e), ts[3..]) else Err(UnexpectedToken)
      else match Expect(RBracket, ParseLevel(0, ts[1..]))
        case Err(f) => Err(f)
        case Ok((index, rest)) => PostfixTail(IndexAccess(e, index), rest)
    else Ok((e, ts))
  }

  function ParsePrimary(ts: seq<Token>): (r: Parsed)
    ensures Shorter(r, ts)
    decreases |ts|, 3
  {
    if ts == [] then Err(UnexpectedToken)
    else match ts[0]
      case StringLit(text) => Ok((Literal(Str(text)), ts[1..]))
      case NumberLit(n) => Ok((Literal(Num(n)), ts[1..]))
      case BoolLit(b) => Ok((Literal(Bool(b)), ts[1..]))
      case NullLit => Ok((Literal(Null), ts[1..]))
      case LParen => Expect(RParen, ParseLevel(0, ts[1..]))
      case Ident(name) => if Starts(ts[1..], LParen) then ParseCall(name, ts[2..]) else Ok((Context(name), ts[1..]))
      case _ => Err(UnexpectedToken)
  }

  function ParseCall(name: string, ts: seq<Token>): (r: Parsed)
    ensures Shorter(r, ts)
    decreases |ts|, 12
  {
    match ParseArgs(ts)
    case Err(f) => Err(f)
    case Ok((args, rest)) =>
      if Starts(rest, RParen) then Ok((FunctionCall(name, args), rest[1..])) else Err(UnexpectedToken)
  }

  function ParseArgs(ts: seq<Token>): (r: Result<(seq<Expr>, seq<Token>)>)
    ensures r.Ok? ==> |r.value.1| <= |ts|
    decreases |ts|, 11
  {
    if Starts(ts, RParen) then Ok(([], ts))
    else match ParseLevel(0, ts)
      case Err(f) => Err(f)
      case Ok((e, rest)) => ArgsTail([e], rest)
  }

  function ArgsTail(args: seq<Expr>, ts: seq<Token>): (r: Result<(seq<Expr>, seq<Token>)>)
    ensures r.Ok? ==> |r.value.1| <= |ts|
    decreases |ts|, 0
  {
    if !Starts(ts, Comma) then Ok((args, ts))
    else match ParseLevel(0, ts[1..])
      case Err(f) => Err(f)
      case Ok((e, rest)) => ArgsTail(args + [e], rest)
  }

  /** The whole token list must be used up. */
  function ParseTokens(ts: seq<Token>): Result<Expr> {
    match ParseLevel(0, ts)
    case Err(f) => Err(f)
    case Ok((e, rest)) => if rest == [] then Ok(e) else Err(TrailingToken)
  }
}
