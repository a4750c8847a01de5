/**
 Precedence and associativity (crates/expressions/src/parser): every tree, written with only the parentheses
 it needs, parses back to itself.
 */
module Precedence {
  import opened Syntax
  import opened Printer
  import opened Grammar
  import opened Reparse

  // ------------------------------------------------------------------------ the order

  /** `q` binds tighter than `p`: `||` is loosest, then `&&`, then `==` and `!=`, then `<`, `<=`, `>` and `>=`. */
  predicate Tighter(q: BinaryOperator, p: BinaryOperator) {
    match p
    case Or => q != Or
    case And => q != Or && q != And
    case Eq => q == Lt || q == Le || q == Gt || q == Ge
    case Neq => q == Lt || q == Le || q == Gt || q == Ge
    case _ => false
  }

  lemma TighterIsHigher(q: BinaryOperator, p: BinaryOperator)
    ensures Tighter(q, p) <==> LevelOf(q) > LevelOf(p)
    ensures LevelOf(q) < UNARY
  {
  }

  // -------------------------------------------------------------------- needed parentheses

  /** Of two operators in a row, the looser or the later one is applied last. */
  predicate LeftNeeds(p: BinaryOperator, left: Expr) {
    left.BinaryOp? && Tighter(p, left.op)
  }

  predicate RightNeeds(p: BinaryOperator, right: Expr) {
    right.BinaryOp? && !Tighter(right.op, p)
  }

  predicate BaseNeeds(base: Expr) {
    base.BinaryOp? || base.Not? || base.Literal?
  }

  /** The tokens of `e` with no parentheses but the needed ones, then `rest`. */
  function Neat(e: Expr, rest: seq<Token>): seq<Token>
    decreases e, 0
  {
    match e
    case Literal(value) => [LiteralToken(value)] + rest
    case Context(name) => [Ident(name)] + rest
    case PropertyAccess(base, property) => NeatIn(BaseNeeds(base), base, [Dot] + ([Ident(property)] + rest))
    case IndexAccess(base, index) => NeatIn(BaseNeeds(base), base, [LBracket] + Neat(index, [RBracket] + rest))
    case WildcardAccess(base) => NeatIn(BaseNeeds(base), base, [Dot] + ([Star] + rest))
    case FunctionCall(name, args) => [Ident(name)] + ([LParen] + NeatArgs(args, [RParen] + rest))
    case Not(operand) => [Bang] + NeatIn(operand.BinaryOp?, operand, rest)
    case BinaryOp(op, left, right) =>
      NeatIn(LeftNeeds(op, left), left, [Operator(op)] + NeatIn(RightNeeds(op, right), right, rest))
  }

  function NeatIn(parens: bool, e: Expr, rest: seq<Token>): seq<Token>
    decreases e, 1
  {
    if parens then [LParen] + Neat(e, [RParen] + rest) else Neat(e, rest)
  }

  function NeatArgs(args: seq<Expr>, rest: seq<Token>): seq<Token>
    decreases args
  {
    if args == [] then rest
    else if |args| == 1 then Neat(args[0], rest)
    else Neat(args[0], [Comma] + NeatArgs(args[1..], rest))
  }

  /** No array and object literals, which no text denotes. */
  predicate Writable(e: Expr)
    decreases e
  {
    match e
    case Literal(value) => !value.Array? && !value.Object?
    case Context(_) => true
    case PropertyAccess(base, _) => Writable(base)
    case IndexAccess(base, index) => Writable(base) && Writable(index)
    case WildcardAccess(base) => Writable(base)
    case FunctionCall(_, args) => AllWritable(args)
    case Not(operand) => Writable(operand)
    case BinaryOp(_, left, right) => Writable(left) && Writable(right)
  }

  predicate AllWritable(args: seq<Expr>)
    decreases args
  {
    args == [] || (Writable(args[0]) && AllWritable(args[1..]))
  }

  // ------------------------------------------------------------------------- reading it

  /** The tokens that may follow an operand at this level: none that goes on with it. */
  predicate Follows(level: nat, rest: seq<Token>) {
    NoCall(rest) && !StartsAccess(rest) && (rest != [] && rest[0].Operator? ==> LevelOf(rest[0].op) <= level)
  }

  /** The highest level that reads `e` without parentheses. */
  function LevelFor(e: Expr): nat {
    if e.BinaryOp? then LevelOf(e.op) else UNARY
  }

  lemma {:induction false} NeatFirst(e: Expr, rest: seq<Token>)
    ensures Neat(e, rest) != [] && Neat(e, rest)[0] != Star && Neat(e, rest)[0] != RParen
    decreases e, 0
  {
    match e
    case PropertyAccess(base, property) => InFirst(BaseNeeds(base), base, [Dot] + ([Ident(property)] + rest));
    case IndexAccess(base, index) => InFirst(BaseNeeds(base), base, [LBracket] + Neat(index, [RBracket] + rest));
    case WildcardAccess(base) => InFirst(BaseNeeds(base), base, [Dot] + ([Star] + rest));
    case BinaryOp(op, left, right) =>
      InFirst(LeftNeeds(op, left), left, [Operator(op)] + NeatIn(RightNeeds(op, right), right, rest));
    case _ =>
  }

  lemma {:induction false} InFirst(parens: bool, e: Expr, rest: seq<Token>)
    ensures NeatIn(parens, e, rest) != [] && NeatIn(parens, e, rest)[0] != Star && NeatIn(parens, e, rest)[0] != RParen
    decreases e, 1
  {
    NeatFirst(e, rest);
  }

  lemma TailIndex(e: Expr, inner: seq<Token>, index: Expr, rest: seq<Token>)
    requires !Starts(inner, Star) && ParseLevel(0, inner) == Ok((index, [RBracket] + rest))
    ensures PostfixTail(e, [LBracket] + inner) == PostfixTail(IndexAccess(e, index), rest)
  {
    AttachBracket(Context([]), inner, Ok(index), rest);
    var ts := [LBracket] + inner;
    assert ts[0] == LBracket && ts[1..] == inner && ([RBracket] + rest)[1..] == rest;
  }

  /** Reading a tree at its own level or below, when nothing that follows belongs to it but operators of that
      level. */
  lemma {:induction false} LevelReadsNeat(e: Expr, rest: seq<Token>, level: nat)
    requires Writable(e) && level <= LevelFor(e) && level < UNARY && Follows(level, rest)
    ensures ParseLevel(level, Neat(e, rest)) == BinaryTail(level, e, rest)
    decreases e, 10 - level
  {
    if level == LevelFor(e) {
      OwnLevelReads(e.op, e.left, e.right, rest);
    } else if level + 1 == UNARY {
      UnaryReadsNeat(e, rest);
    } else {
      LevelReadsNeat(e, rest, level + 1);
    }
  }

  /** The same of an operand, with or without its parentheses. */
  lemma {:induction false} LevelReadsIn(parens: bool, e: Expr, rest: seq<Token>, level: nat)
    requires Writable(e) && (parens || level <= LevelFor(e)) && level <= UNARY
    requires if level == UNARY then NoCall(rest) && !StartsAccess(rest) else Follows(level, rest)
    ensures ParseLevel(level, NeatIn(parens, e, rest))
         == if level == UNARY then Ok((e, rest)) else BinaryTail(level, e, rest)
    decreases e, 20, 10 - level
  {
    if level == UNARY {
      if parens {
        GroupReadsNeat(e, rest);
      } else {
        UnaryReadsNeat(e, rest);
      }
    } else if !parens {
      LevelReadsNeat(e, rest, level);
    } else {
      LevelReadsIn(parens, e, rest, level + 1);
    }
  }

  lemma {:induction false} OwnLevelReads(op: BinaryOperator, left: Expr, right: Expr, rest: seq<Token>)
    requires Writable(left) && Writable(right) && Follows(LevelOf(op), rest)
    ensures ParseLevel(LevelOf(op), Neat(BinaryOp(op, left, right), rest))
         == BinaryTail(LevelOf(op), BinaryOp(op, left, right), rest)
    decreases BinaryOp(op, left, right), 0
  {
    var level, after := LevelOf(op), NeatIn(RightNeeds(op, right), right, rest);
    if left.BinaryOp? {
      TighterIsHigher(op, left.op);
    }
    if right.BinaryOp? {
      TighterIsHigher(right.op, op);
    }
    TighterIsHigher(op, op);
    LevelReadsIn(LeftNeeds(op, left), left, [Operator(op)] + after, level);
    LevelReadsIn(RightNeeds(op, right), right, rest, level + 1);
    NextOperand(op, left, after, right, rest);
  }

  lemma NextOperand(op: BinaryOperator, left: Expr, after: seq<Token>, right: Expr, rest: seq<Token>)
    requires LevelOf(op) < UNARY && ParseLevel(LevelOf(op) + 1, after) == Ok((right, rest))
    ensures BinaryTail(LevelOf(op), left, [Operator(op)] + after)
         == BinaryTail(LevelOf(op), BinaryOp(op, left, right), rest)
  {
    assert ([Operator(op)] + after)[1..] == after;
  }

  lemma {:induction false} GroupReadsNeat(e: Expr, rest: seq<Token>)
    requires Writable(e)
    ensures ParseUnary([LParen] + Neat(e, [RParen] + rest)) == PostfixTail(e, rest)
    decreases e, 15
  {
    LevelReadsNeat(e, [RParen] + rest, 0);
    UnaryOfGroup(Neat(e, [RParen] + rest), Ok(e), rest);
  }

  /** A primary and its accesses, with more accesses or anything else but a call to follow. */
  lemma {:induction false} PostfixReads(e: Expr, rest: seq<Token>)
    requires Writable(e) && !BaseNeeds(e) && NoCall(rest)
    ensures ParseUnary(Neat(e, rest)) == PostfixTail(e, rest)
    decreases e, 2
  {
    match e
    case Context(name) => UnaryOfContext(name, rest);
    case PropertyAccess(base, property) =>
      BaseReads(base, [Dot] + ([Ident(property)] + rest));
      TailDot(base, property, rest);
    case IndexAccess(base, index) =>
      var inner := Neat(index, [RBracket] + rest);
      BaseReads(base, [LBracket] + inner);
      LevelReadsNeat(index, [RBracket] + rest, 0);
      NeatFirst(index, [RBracket] + rest);
      TailIndex(base, inner, index, rest);
    case WildcardAccess(base) =>
      BaseReads(base, [Dot] + ([Star] + rest));
      TailStar(base, rest);
    case FunctionCall(name, args) =>
      NeatArgsRead(args, [RParen] + rest);
      UnaryOfCall(name, NeatArgs(args, [RParen] + rest), Ok(args), rest);
  }

  lemma {:induction false} BaseReads(base: Expr, rest: seq<Token>)
    requires Writable(base) && NoCall(rest)
    ensures ParseUnary(NeatIn(BaseNeeds(base), base, rest)) == PostfixTail(base, rest)
    decreases base, 16
  {
    if BaseNeeds(base) {
      GroupReadsNeat(base, rest);
    } else {
      PostfixReads(base, rest);
    }
  }

  lemma LiteralReads(value: Value, rest: seq<Token>)
    requires !value.Array? && !value.Object? && !StartsAccess(rest)
    ensures ParseUnary([LiteralToken(value)] + rest) == Ok((Literal(value), rest))
  {
    var ts := [LiteralToken(value)] + rest;
    assert ts[0] == LiteralToken(value) && ts[1..] == rest;
    assert ParsePrimary(ts) == Ok((Literal(value), rest));
    assert ParseUnary(ts) == ParsePostfix(ts);
    assert PostfixTail(Literal(value), rest) == Ok((Literal(value), rest));
  }

  lemma {:induction false} UnaryReadsNeat(e: Expr, rest: seq<Token>)
    requires Writable(e) && !e.BinaryOp? && NoCall(rest) && !StartsAccess(rest)
    ensures ParseUnary(Neat(e, rest)) == Ok((e, rest))
    decreases e, 3
  {
    if e.Literal? {
      LiteralReads(e.value, rest);
    } else if e.Not? {
      var inner := NeatIn(e.operand.BinaryOp?, e.operand, rest);
      LevelReadsIn(e.operand.BinaryOp?, e.operand, rest, UNARY);
      assert ([Bang] + inner)[1..] == inner;
    } else {
      PostfixReads(e, rest);
    }
  }

  lemma {:induction false} NeatArgsTail(done: seq<Expr>, args: seq<Expr>, rest: seq<Token>)
    requires AllWritable(args) && args != [] && Starts(rest, RParen)
    ensures ArgsTail(done, [Comma] + NeatArgs(args, rest)) == Ok((done + args, rest))
    decreases args, 30
  {
    var ts := [Comma] + NeatArgs(args, rest);
    assert ts[0] == Comma && ts[1..] == NeatArgs(args, rest);
    if |args| == 1 {
      LevelReadsNeat(args[0], rest, 0);
      assert done + [args[0]] == done + args;
    } else {
      LevelReadsNeat(args[0], [Comma] + NeatArgs(args[1..], rest), 0);
      NeatArgsTail(done + [args[0]], args[1..], rest);
      assert (done + [args[0]]) + args[1..] == done + args;
    }
  }

  lemma {:induction false} NeatArgsRead(args: seq<Expr>, rest: seq<Token>)
    requires AllWritable(args) && Starts(rest, RParen)
    ensures ParseArgs(NeatArgs(args, rest)) == Ok((args, rest))
    decreases args, 31
  {
    if args != [] {
      var after := if |args| == 1 then rest else [Comma] + NeatArgs(args[1..], rest);
      NeatFirst(args[0], after);
      LevelReadsNeat(args[0], after, 0);
      if |args| == 1 {
        assert [args[0]] == args;
      } else {
        NeatArgsTail([args[0]], args[1..], rest);
        assert [args[0]] + args[1..] == args;
      }
    }
  }

  // ---------------------------------------------------------------------------- the theorems

  /** Every tree, written with only the parentheses it needs, parses back to itself. */
  lemma NeatParses(e: Expr)
    requires Writable(e)
    ensures ParseTokens(Neat(e, [])) == Ok(e)
  {
    LevelReadsNeat(e, [], 0);
  }

  lemma NeatRight(p: BinaryOperator, q: BinaryOperator, a: Expr, b: Expr, c: Expr)
    requires Tighter(q, p) && !a.BinaryOp? && !b.BinaryOp? && !c.BinaryOp?
    ensures Neat(BinaryOp(p, a, BinaryOp(q, b, c)), []) == Neat(a, [Operator(p)] + Neat(b, [Operator(q)] + Neat(c, [])))
  {
    assert Neat(BinaryOp(q, b, c), []) == Neat(b, [Operator(q)] + Neat(c, []));
  }

  lemma NeatLeft(p: BinaryOperator, q: BinaryOperator, a: Expr, b: Expr, c: Expr)
    requires !Tighter(q, p) && !a.BinaryOp? && !b.BinaryOp? && !c.BinaryOp?
    ensures Neat(BinaryOp(q, BinaryOp(p, a, b), c), []) == Neat(a, [Operator(p)] + Neat(b, [Operator(q)] + Neat(c, [])))
  {
    var rest := [Operator(q)] + Neat(c, []);
    assert Neat(BinaryOp(p, a, b), rest) == Neat(a, [Operator(p)] + Neat(b, rest));
  }

  /** Of `a p b q c` without parentheses, `b` goes to `q` exactly when `q` binds tighter than `p`. */
  lemma TwoOperators(p: BinaryOperator, q: BinaryOperator, a: Expr, b: Expr, c: Expr)
    requires Writable(a) && Writable(b) && Writable(c) && !a.BinaryOp? && !b.BinaryOp? && !c.BinaryOp?
    ensures ParseTokens(Neat(a, [Operator(p)] + Neat(b, [Operator(q)] + Neat(c, []))))
         == Ok(if Tighter(q, p) then BinaryOp(p, a, BinaryOp(q, b, c)) else BinaryOp(q, BinaryOp(p, a, b), c))
  {
    if Tighter(q, p) {
      NeatRight(p, q, a, b, c);
      NeatParses(BinaryOp(p, a, BinaryOp(q, b, c)));
    } else {
      NeatLeft(p, q, a, b, c);
      NeatParses(BinaryOp(q, BinaryOp(p, a, b), c));
    }
  }
}
