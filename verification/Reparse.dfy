/**
 What parsing printed text gives back (crates/expressions/src: display.rs and parser): exactly
 which trees survive printing, and what becomes of the others.
 */
module Reparse {
  import opened Text
  import opened Syntax
  import opened Printer
  import opened Grammar
  import opened Lexer
  import opened PrintedTokens

  // ------------------------------------------------------------- what a tree reparses to

  datatype Access = ByName(property: string) | ByIndex(index: Expr) | Every

  function Apply(e: Expr, a: Access): Expr {
    match a
    case ByName(property) => PropertyAccess(e, property)
    case ByIndex(index) => IndexAccess(e, index)
    case Every => WildcardAccess(e)
  }

  /** Where an access printed after `e` ends up: inside a negation, and nowhere on a literal. */
  function Attach(e: Expr, a: Access): Result<Expr>
    decreases e
  {
    match e
    case Literal(_) => Err(LiteralIndexed)
    case Not(operand) => Negated(Attach(operand, a))
    case _ => Ok(Apply(e, a))
  }

  function Negated(r: Result<Expr>): Result<Expr> {
    match r
    case Err(f) => Err(f)
    case Ok(e) => Ok(Not(e))
  }

  function AttachTo(r: Result<Expr>, a: Access): Result<Expr> {
    match r
    case Err(f) => Err(f)
    case Ok(e) => Attach(e, a)
  }

  function IndexOn(base: Result<Expr>, index: Result<Expr>): Result<Expr> {
    match index
    case Err(f) => Err(f)
    case Ok(i) => AttachTo(base, ByIndex(i))
  }

  function Joined(op: BinaryOperator, left: Result<Expr>, right: Result<Expr>): Result<Expr> {
    match left
    case Err(f) => Err(f)
    case Ok(l) => match right
      case Err(f) => Err(f)
      case Ok(r) => Ok(BinaryOp(op, l, r))
  }

  /** The tree that parsing the printed text of `e` gives, or the one error it can give. */
  function Reparsed(e: Expr): (r: Result<Expr>)
    ensures r.Err? ==> r.error == LiteralIndexed
    decreases e
  {
    match e
    case Literal(_) => Ok(e)
    case Context(_) => Ok(e)
    case PropertyAccess(base, property) =>
      AttachErrs(Reparsed(base), ByName(property)); AttachTo(Reparsed(base), ByName(property))
    case IndexAccess(base, index) =>
      if PrintsAsProperty(index) then
        AttachErrs(Reparsed(base), ByName(index.value.text)); AttachTo(Reparsed(base), ByName(index.value.text))
      else
        IndexErrs(Reparsed(base), Reparsed(index)); IndexOn(Reparsed(base), Reparsed(index))
    case WildcardAccess(base) => AttachErrs(Reparsed(base), Every); AttachTo(Reparsed(base), Every)
    case FunctionCall(name, args) =>
      var all := ReparsedAll(args);
      if all.Err? then Err(all.error) else Ok(FunctionCall(name, all.value))
    case Not(operand) => Negated(Reparsed(operand))
    case BinaryOp(op, left, right) => Joined(op, Reparsed(left), Reparsed(right))
  }

  function ReparsedAll(args: seq<Expr>): (r: Result<seq<Expr>>)
    ensures r.Err? ==> r.error == LiteralIndexed
    ensures r.Ok? ==> |r.value| == |args|
    decreases args
  {
    if args == [] then Ok([])
    else
      var first, rest := Reparsed(args[0]), ReparsedAll(args[1..]);
      if first.Err? then Err(first.error) else if rest.Err? then rest else Ok([first.value] + rest.value)
  }

  lemma {:induction false} AttachErrsAt(e: Expr, a: Access)
    ensures Attach(e, a).Err? ==> Attach(e, a).error == LiteralIndexed
    decreases e
  {
    if e.Not? {
      AttachErrsAt(e.operand, a);
    }
  }

  lemma AttachErrs(r: Result<Expr>, a: Access)
    requires r.Err? ==> r.error == LiteralIndexed
    ensures AttachTo(r, a).Err? ==> AttachTo(r, a).error == LiteralIndexed
  {
    if r.Ok? {
      AttachErrsAt(r.value, a);
    }
  }

  lemma IndexErrs(base: Result<Expr>, index: Result<Expr>)
    requires (base.Err? ==> base.error == LiteralIndexed) && (index.Err? ==> index.error == LiteralIndexed)
    ensures IndexOn(base, index).Err? ==> IndexOn(base, index).error == LiteralIndexed
  {
    if index.Ok? {
      AttachErrs(base, ByIndex(index.value));
    }
  }

  // ------------------------------------------------------------- resuming after a tree

  /** What the unary parser still does once it has read `e` and `rest` follows. */
  ghost function ResumeAt(e: Expr, rest: seq<Token>): Parsed
    decreases e
  {
    match e
    case Not(operand) => MapNot(ResumeAt(operand, rest))
    case Literal(_) => if StartsAccess(rest) then Err(LiteralIndexed) else Ok((e, rest))
    case _ => PostfixTail(e, rest)
  }

  ghost function Resume(r: Result<Expr>, rest: seq<Token>): Parsed {
    match r
    case Err(f) => Err(f)
    case Ok(e) => ResumeAt(e, rest)
  }

  function Pair(r: Result<Expr>, rest: seq<Token>): Parsed {
    match r
    case Err(f) => Err(f)
    case Ok(e) => Ok((e, rest))
  }

  lemma {:induction false} ResumeStops(e: Expr, rest: seq<Token>)
    requires !StartsAccess(rest)
    ensures ResumeAt(e, rest) == Ok((e, rest))
    decreases e
  {
    if e.Not? {
      ResumeStops(e.operand, rest);
    }
  }

  lemma TailDot(e: Expr, property: string, rest: seq<Token>)
    ensures PostfixTail(e, [Dot] + ([Ident(property)] + rest)) == PostfixTail(PropertyAccess(e, property), rest)
  {
    var ts := [Dot] + ([Ident(property)] + rest);
    assert ts[0] == Dot && ts[1] == Ident(property) && ts[1..][0] == Ident(property) && ts[2..] == rest;
  }

  lemma TailStar(e: Expr, rest: seq<Token>)
    ensures PostfixTail(e, [Dot] + ([Star] + rest)) == PostfixTail(WildcardAccess(e), rest)
  {
    var ts := [Dot] + ([Star] + rest);
    assert ts[0] == Dot && ts[1..][0] == Star && ts[2..] == rest;
  }

  lemma {:induction false} AttachName(e: Expr, property: string, rest: seq<Token>)
    ensures ResumeAt(e, [Dot] + ([Ident(property)] + rest)) == Resume(Attach(e, ByName(property)), rest)
    decreases e
  {
    match e
    case Literal(_) =>
    case Not(operand) =>
      AttachName(operand, property, rest);
    case _ => TailDot(e, property, rest);
  }

  lemma {:induction false} AttachEvery(e: Expr, rest: seq<Token>)
    ensures ResumeAt(e, [Dot] + ([Star] + rest)) == Resume(Attach(e, Every), rest)
    decreases e
  {
    match e
    case Literal(_) =>
    case Not(operand) =>
      AttachEvery(operand, rest);
    case _ => TailStar(e, rest);
  }

  lemma {:induction false} AttachBracket(e: Expr, inner: seq<Token>, index: Result<Expr>, rest: seq<Token>)
    requires !Starts(inner, Star) && ParseLevel(0, inner) == Pair(index, [RBracket] + rest)
    requires index.Err? ==> index.error == LiteralIndexed
    ensures ResumeAt(e, [LBracket] + inner)
         == if index.Err? then Err(LiteralIndexed) else Resume(Attach(e, ByIndex(index.value)), rest)
    decreases e
  {
    match e
    case Literal(_) =>
    case Not(operand) =>
      AttachBracket(operand, inner, index, rest);
    case _ =>
  }

  // ---------------------------------------------------------------- parsing a tree's tokens

  predicate NoCall(rest: seq<Token>) {
    !Starts(rest, LParen)
  }

  /** Tokens that end an operand at this precedence level. */
  predicate Ends(level: nat, rest: seq<Token>) {
    NoCall(rest) && !StartsAccess(rest) && (rest != [] && rest[0].Operator? ==> LevelOf(rest[0].op) < level)
  }

  lemma {:induction false} FirstToken(e: Expr, rest: seq<Token>)
    ensures TokensOnto(e, rest) != [] && TokensOnto(e, rest)[0] != Star && TokensOnto(e, rest)[0] != RParen
    decreases e
  {
    match e
    case PropertyAccess(base, property) => FirstToken(base, [Dot] + ([Ident(property)] + rest));
    case IndexAccess(base, index) =>
      FirstToken(base, if PrintsAsProperty(index) then [Dot] + ([Ident(index.value.text)] + rest)
                       else [LBracket] + TokensOnto(index, [RBracket] + rest));
    case WildcardAccess(base) => FirstToken(base, [Dot] + ([Star] + rest));
    case _ =>
  }

  lemma UnaryOfLiteral(value: Value, rest: seq<Token>)
    requires value.Str? || value.Null? || value.Bool?
    ensures ParseUnary([LiteralToken(value)] + rest) == ResumeAt(Literal(value), rest)
  {
    var ts := [LiteralToken(value)] + rest;
    assert ts[0] == LiteralToken(value) && ts[1..] == rest;
    assert ParsePrimary(ts) == Ok((Literal(value), rest));
    assert ParseUnary(ts) == ParsePostfix(ts);
    assert !StartsAccess(rest) ==> PostfixTail(Literal(value), rest) == Ok((Literal(value), rest));
  }

  lemma UnaryOfContext(name: string, rest: seq<Token>)
    requires NoCall(rest)
    ensures ParseUnary([Ident(name)] + rest) == PostfixTail(Context(name), rest)
  {
    var ts := [Ident(name)] + rest;
    assert ts[0] == Ident(name) && ts[1..] == rest;
    assert ParsePrimary(ts) == Ok((Context(name), rest));
  }

  lemma UnaryOfGroup(inner: seq<Token>, r: Result<Expr>, rest: seq<Token>)
    requires ParseLevel(0, inner) == Pair(r, [RParen] + rest)
    ensures ParseUnary([LParen] + inner) == if r.Err? then Err(r.error) else PostfixTail(r.value, rest)
  {
    var ts := [LParen] + inner;
    assert ts[0] == LParen && ts[1..] == inner;
    assert ([RParen] + rest)[1..] == rest;
    assert ParsePrimary(ts) == Pair(r, rest);
  }

  function ArgsPair(r: Result<seq<Expr>>, rest: seq<Token>): Result<(seq<Expr>, seq<Token>)> {
    match r
    case Err(f) => Err(f)
    case Ok(args) => Ok((args, rest))
  }

  lemma UnaryOfCall(name: string, inner: seq<Token>, args: Result<seq<Expr>>, rest: seq<Token>)
    requires ParseArgs(inner) == ArgsPair(args, [RParen] + rest)
    ensures ParseUnary([Ident(name)] + ([LParen] + inner))
         == if args.Err? then Err(args.error) else PostfixTail(FunctionCall(name, args.value), rest)
  {
    var ts := [Ident(name)] + ([LParen] + inner);
    assert ts[0] == Ident(name) && ts[1..][0] == LParen && ts[2..] == inner;
    assert ([RParen] + rest)[1..] == rest;
    assert ParsePrimary(ts) == ParseCall(name, inner);
  }

  /** Reading a tree's tokens at unary level, with anything but a call following. */
  lemma {:induction false} UnaryReads(e: Expr, rest: seq<Token>)
    requires Printable(e) && NoCall(rest)
    ensures ParseUnary(TokensOnto(e, rest)) == Resume(Reparsed(e), rest)
    decreases e, 1
  {
    match e
    case Literal(value) => UnaryOfLiteral(value, rest);
    case Context(name) => UnaryOfContext(name, rest);
    case PropertyAccess(base, property) => UnaryReadsName(base, property, rest);
    case IndexAccess(base, index) =>
      if PrintsAsProperty(index) {
        UnaryReadsName(base, index.value.text, rest);
      } else {
        UnaryReadsIndex(base, index, rest);
      }
    case WildcardAccess(base) =>
      UnaryReads(base, [Dot] + ([Star] + rest));
      if Reparsed(base).Ok? {
        AttachEvery(Reparsed(base).value, rest);
      }
    case FunctionCall(name, args) =>
      ArgsRead(args, [RParen] + rest);
      UnaryOfCall(name, ArgTokensOnto(args, [RParen] + rest), ReparsedAll(args), rest);
    case Not(operand) =>
      UnaryReads(operand, rest);
    case BinaryOp(op, left, right) =>
      GroupReads(op, left, right, rest);
      UnaryOfGroup(TokensOnto(left, [Operator(op)] + TokensOnto(right, [RParen] + rest)), Reparsed(e), rest);
  }

  lemma {:induction false} UnaryReadsName(base: Expr, property: string, rest: seq<Token>)
    requires Printable(base) && NoCall(rest)
    ensures ParseUnary(TokensOnto(base, [Dot] + ([Ident(property)] + rest)))
         == Resume(AttachTo(Reparsed(base), ByName(property)), rest)
    decreases base, 20
  {
    UnaryReads(base, [Dot] + ([Ident(property)] + rest));
    if Reparsed(base).Ok? {
      AttachName(Reparsed(base).value, property, rest);
    }
  }

  lemma {:induction false} UnaryReadsIndex(base: Expr, index: Expr, rest: seq<Token>)
    requires Printable(base) && Printable(index) && NoCall(rest) && !PrintsAsProperty(index)
    ensures ParseUnary(TokensOnto(base, [LBracket] + TokensOnto(index, [RBracket] + rest)))
         == Resume(IndexOn(Reparsed(base), Reparsed(index)), rest)
    decreases IndexAccess(base, index), 0
  {
    var inner := TokensOnto(index, [RBracket] + rest);
    UnaryReads(base, [LBracket] + inner);
    LevelReads(index, [RBracket] + rest, 0);
    FirstToken(index, [RBracket] + rest);
    ResumeIndex(Reparsed(base), inner, Reparsed(index), rest);
  }

  lemma ResumeIndex(base: Result<Expr>, inner: seq<Token>, index: Result<Expr>, rest: seq<Token>)
    requires !Starts(inner, Star) && ParseLevel(0, inner) == Pair(index, [RBracket] + rest)
    requires (base.Err? ==> base.error == LiteralIndexed) && (index.Err? ==> index.error == LiteralIndexed)
    ensures Resume(base, [LBracket] + inner) == Resume(IndexOn(base, index), rest)
  {
    if base.Ok? {
      AttachBracket(base.value, inner, index, rest);
    }
  }

  /** Reading a tree's tokens at any level, up to a token that ends it there. */
  lemma {:induction false} LevelReads(e: Expr, rest: seq<Token>, level: nat)
    requires Printable(e) && level <= UNARY && Ends(level, rest)
    ensures ParseLevel(level, TokensOnto(e, rest)) == Pair(Reparsed(e), rest)
    decreases e, 10 - level
  {
    if level == UNARY {
      UnaryReads(e, rest);
      if Reparsed(e).Ok? {
        ResumeStops(Reparsed(e).value, rest);
      }
    } else {
      LevelReads(e, rest, level + 1);
    }
  }

  lemma OperatorTail(level: nat, op: BinaryOperator, left: Expr, ts: seq<Token>, right: Result<Expr>, rest: seq<Token>)
    requires level == LevelOf(op) < UNARY && ParseLevel(level + 1, ts) == Pair(right, rest) && !AtLevel(level, rest)
    ensures BinaryTail(level, left, [Operator(op)] + ts) == Pair(Joined(op, Ok(left), right), rest)
  {
  }

  /** Past its own level, an operation up to a closing parenthesis is passed down unchanged. */
  lemma {:induction false} PassedDown(level: nat, ts: seq<Token>, r: Result<Expr>, rest: seq<Token>)
    requires level <= UNARY && ParseLevel(level, ts) == Pair(r, rest) && Starts(rest, RParen)
    ensures ParseLevel(0, ts) == Pair(r, rest)
    decreases level
  {
    if level > 0 {
      PassedDown(level - 1, ts, r, rest);
    }
  }

  /** Both operands of a parenthesized operation. */
  lemma {:induction false} GroupReads(op: BinaryOperator, left: Expr, right: Expr, rest: seq<Token>)
    requires Printable(left) && Printable(right)
    ensures ParseLevel(0, TokensOnto(left, [Operator(op)] + TokensOnto(right, [RParen] + rest)))
         == Pair(Joined(op, Reparsed(left), Reparsed(right)), [RParen] + rest)
    decreases BinaryOp(op, left, right), 0
  {
    var after := TokensOnto(right, [RParen] + rest);
    LevelReads(right, [RParen] + rest, LevelOf(op) + 1);
    LeftThenRight(op, left, after, Reparsed(right), [RParen] + rest);
    PassedDown(LevelOf(op), TokensOnto(left, [Operator(op)] + after), Joined(op, Reparsed(left), Reparsed(right)),
               [RParen] + rest);
  }

  lemma {:induction false} LeftThenRight(op: BinaryOperator, left: Expr, after: seq<Token>, right: Result<Expr>,
                                         rest: seq<Token>)
    requires Printable(left)
    requires ParseLevel(LevelOf(op) + 1, after) == Pair(right, rest) && !AtLevel(LevelOf(op), rest)
    ensures ParseLevel(LevelOf(op), TokensOnto(left, [Operator(op)] + after))
         == Pair(Joined(op, Reparsed(left), right), rest)
    decreases left, 40
  {
    LevelReads(left, [Operator(op)] + after, LevelOf(op) + 1);
    OperandsRead(op, TokensOnto(left, [Operator(op)] + after), Reparsed(left), after, right, rest);
  }

  lemma OperandsRead(op: BinaryOperator, ts: seq<Token>, left: Result<Expr>, after: seq<Token>, right: Result<Expr>,
                     rest: seq<Token>)
    requires ParseLevel(LevelOf(op) + 1, ts) == Pair(left, [Operator(op)] + after)
    requires ParseLevel(LevelOf(op) + 1, after) == Pair(right, rest) && !AtLevel(LevelOf(op), rest)
    ensures ParseLevel(LevelOf(op), ts) == Pair(Joined(op, left, right), rest)
  {
    if left.Ok? {
      OperatorTail(LevelOf(op), op, left.value, after, right, rest);
    }
  }

  function AppendAll(args: seq<Expr>, r: Result<seq<Expr>>): Result<seq<Expr>> {
    match r
    case Err(f) => Err(f)
    case Ok(more) => Ok(args + more)
  }

  lemma {:induction false} ArgsTailReads(done: seq<Expr>, args: seq<Expr>, rest: seq<Token>)
    requires AllPrintable(args) && args != [] && Starts(rest, RParen)
    ensures ArgsTail(done, [Comma] + ArgTokensOnto(args, rest)) == ArgsPair(AppendAll(done, ReparsedAll(args)), rest)
    decreases args, 30
  {
    var ts := [Comma] + ArgTokensOnto(args, rest);
    assert ts[0] == Comma && ts[1..] == ArgTokensOnto(args, rest);
    assert args[1..] == [] ==> ReparsedAll(args[1..]) == Ok([]);
    if |args| == 1 {
      LevelReads(args[0], rest, 0);
      if Reparsed(args[0]).Ok? {
        assert [Reparsed(args[0]).value] + [] == [Reparsed(args[0]).value];
      }
    } else {
      LevelReads(args[0], [Comma] + ArgTokensOnto(args[1..], rest), 0);
      if Reparsed(args[0]).Ok? {
        ArgsTailReads(done + [Reparsed(args[0]).value], args[1..], rest);
        AppendStep(done, Reparsed(args[0]).value, ReparsedAll(args[1..]));
      }
    }
  }

  lemma AppendStep(done: seq<Expr>, e: Expr, r: Result<seq<Expr>>)
    ensures r.Ok? ==> (done + [e]) + r.value == done + ([e] + r.value)
  {
  }

  lemma {:induction false} ArgsRead(args: seq<Expr>, rest: seq<Token>)
    requires AllPrintable(args) && Starts(rest, RParen)
    ensures ParseArgs(ArgTokensOnto(args, rest)) == ArgsPair(ReparsedAll(args), rest)
    decreases args, 31
  {
    if args != [] {
      FirstToken(args[0], if |args| == 1 then rest else [Comma] + ArgTokensOnto(args[1..], rest));
      if |args| == 1 {
        assert args[1..] == [] && ReparsedAll(args[1..]) == Ok([]);
        LevelReads(args[0], rest, 0);
        if Reparsed(args[0]).Ok? {
          assert [Reparsed(args[0]).value] + [] == [Reparsed(args[0]).value];
        }
      } else {
        LevelReads(args[0], [Comma] + ArgTokensOnto(args[1..], rest), 0);
        if Reparsed(args[0]).Ok? {
          ArgsTailReads([Reparsed(args[0]).value], args[1..], rest);
        }
      }
    }
  }

  // ------------------------------------------------------------------------ the theorems

  /** `parse` on text. */
  function Parse(input: string, parse: NumberParser): Result<Expr> {
    match LexFrom(input, None, parse)
    case Err(f) => Err(f)
    case Ok(ts) => ParseTokens(ts)
  }

  /** Printing, lexing and parsing gives exactly the reparsed tree, or its error. */
  lemma PrintedTextParses(e: Expr, parse: NumberParser, number: Number -> string)
    requires Printable(e)
    ensures Parse(Print(e, number), parse) == Reparsed(e)
  {
    PrintedTextLexes(e, parse, number);
    LevelReads(e, [], 0);
  }

  /** A string index that is a legal name comes back as a property. */
  function Normalized(e: Expr): Expr
    decreases e
  {
    match e
    case Literal(_) => e
    case Context(_) => e
    case PropertyAccess(base, property) => PropertyAccess(Normalized(base), property)
    case IndexAccess(base, index) =>
      if PrintsAsProperty(index) then PropertyAccess(Normalized(base), index.value.text)
      else IndexAccess(Normalized(base), Normalized(index))
    case WildcardAccess(base) => WildcardAccess(Normalized(base))
    case FunctionCall(name, args) => FunctionCall(name, NormalizedAll(args))
    case Not(operand) => Not(Normalized(operand))
    case BinaryOp(op, left, right) => BinaryOp(op, Normalized(left), Normalized(right))
  }

  function NormalizedAll(args: seq<Expr>): (r: seq<Expr>)
    ensures |r| == |args|
    decreases args
  {
    if args == [] then [] else [Normalized(args[0])] + NormalizedAll(args[1..])
  }

  predicate CanBeAccessed(base: Expr) {
    !base.Literal? && !base.Not?
  }

  /** No access stands on a literal or on a negation. */
  predicate AccessesAttach(e: Expr)
    decreases e
  {
    match e
    case Literal(_) => true
    case Context(_) => true
    case PropertyAccess(base, _) => CanBeAccessed(base) && AccessesAttach(base)
    case IndexAccess(base, index) => CanBeAccessed(base) && AccessesAttach(base) && AccessesAttach(index)
    case WildcardAccess(base) => CanBeAccessed(base) && AccessesAttach(base)
    case FunctionCall(_, args) => AllAttach(args)
    case Not(operand) => AccessesAttach(operand)
    case BinaryOp(_, left, right) => AccessesAttach(left) && AccessesAttach(right)
  }

  predicate AllAttach(args: seq<Expr>)
    decreases args
  {
    args == [] || (AccessesAttach(args[0]) && AllAttach(args[1..]))
  }

  lemma {:induction false} ReparsedIsNormalized(e: Expr)
    ensures Reparsed(e) == Ok(Normalized(e)) <==> AccessesAttach(e)
    decreases e
  {
    match e
    case Literal(_) =>
    case Context(_) =>
    case PropertyAccess(base, property) =>
      ReparsedIsNormalized(base);
    case IndexAccess(base, index) =>
      ReparsedIsNormalized(base);
      ReparsedIsNormalized(index);
    case WildcardAccess(base) =>
      ReparsedIsNormalized(base);
    case FunctionCall(_, args) => ReparsedAllIsNormalized(args);
    case Not(operand) => ReparsedIsNormalized(operand);
    case BinaryOp(_, left, right) =>
      ReparsedIsNormalized(left);
      ReparsedIsNormalized(right);
  }

  lemma {:induction false} ReparsedAllIsNormalized(args: seq<Expr>)
    ensures ReparsedAll(args) == Ok(NormalizedAll(args)) <==> AllAttach(args)
    decreases args
  {
    if args != [] {
      ReparsedIsNormalized(args[0]);
      ReparsedAllIsNormalized(args[1..]);
      if ReparsedAll(args).Ok? {
        ConsEquals(Reparsed(args[0]).value, ReparsedAll(args[1..]).value, Normalized(args[0]),
                   NormalizedAll(args[1..]));
      }
    }
  }

  lemma ConsEquals(a: Expr, s: seq<Expr>, b: Expr, t: seq<Expr>)
    ensures [a] + s == [b] + t <==> a == b && s == t
  {
    if [a] + s == [b] + t {
      assert ([a] + s)[0] == a && ([b] + t)[0] == b;
      assert ([a] + s)[1..] == s && ([b] + t)[1..] == t;
    }
  }

  /** Printing then parsing gives the tree back, up to names written as indexes, exactly when no
      access stands on a literal or a negation. */
  lemma PrintParseRoundTripIff(e: Expr, parse: NumberParser, number: Number -> string)
    requires Printable(e)
    ensures Parse(Print(e, number), parse) == Ok(Normalized(e)) <==> AccessesAttach(e)
  {
    PrintedTextParses(e, parse, number);
    ReparsedIsNormalized(e);
  }

  // ------------------------------------------------------------ the text is a fixed point

  lemma {:induction false} AttachPrints(e: Expr, a: Access, rest: string, number: Number -> string)
    requires Attach(e, a).Ok?
    ensures PrintOnto(Attach(e, a).value, rest, number) == PrintOnto(Apply(e, a), rest, number)
    decreases e
  {
    if e.Not? {
      AttachPrints(e.operand, a, rest, number);
    }
  }

  lemma ReparsedLiteral(e: Expr)
    requires Reparsed(e).Ok? && Reparsed(e).value.Literal?
    ensures Reparsed(e).value == e
  {
  }

  lemma {:induction false} ReparsedPrintsTheSame(e: Expr, rest: string, number: Number -> string)
    requires Reparsed(e).Ok?
    ensures PrintOnto(Reparsed(e).value, rest, number) == PrintOnto(e, rest, number)
    decreases e, 1
  {
    match e
    case Literal(_) =>
    case Context(_) =>
    case PropertyAccess(base, property) => NamePrintsTheSame(base, property, rest, number);
    case IndexAccess(base, index) =>
      if PrintsAsProperty(index) {
        NamePrintsTheSame(base, index.value.text, rest, number);
      } else {
        IndexPrintsTheSame(base, index, rest, number);
      }
    case WildcardAccess(base) =>
      AttachPrints(Reparsed(base).value, Every, rest, number);
      ReparsedPrintsTheSame(base, "." + ("*" + rest), number);
    case FunctionCall(_, args) => ArgsPrintTheSame(args, ")" + rest, number);
    case Not(operand) => ReparsedPrintsTheSame(operand, rest, number);
    case BinaryOp(op, left, right) =>
      ReparsedPrintsTheSame(right, ")" + rest, number);
      ReparsedPrintsTheSame(left, RightOnto(op, right, rest, number), number);
  }

  lemma {:induction false} NamePrintsTheSame(base: Expr, property: string, rest: string, number: Number -> string)
    requires AttachTo(Reparsed(base), ByName(property)).Ok?
    ensures PrintOnto(AttachTo(Reparsed(base), ByName(property)).value, rest, number)
         == PrintOnto(base, "." + (property + rest), number)
    decreases base, 2
  {
    AttachPrints(Reparsed(base).value, ByName(property), rest, number);
    ReparsedPrintsTheSame(base, "." + (property + rest), number);
  }

  lemma {:induction false} IndexPrintsTheSame(base: Expr, index: Expr, rest: string, number: Number -> string)
    requires !PrintsAsProperty(index) && Reparsed(IndexAccess(base, index)).Ok?
    ensures PrintOnto(Reparsed(IndexAccess(base, index)).value, rest, number)
         == PrintOnto(IndexAccess(base, index), rest, number)
    decreases IndexAccess(base, index), 0
  {
    var i := Reparsed(index).value;
    AttachPrints(Reparsed(base).value, ByIndex(i), rest, number);
    if i.Literal? {
      ReparsedLiteral(index);
    }
    ReparsedPrintsTheSame(index, "]" + rest, number);
    ReparsedPrintsTheSame(base, "[" + PrintOnto(index, "]" + rest, number), number);
  }

  lemma {:induction false} ArgsPrintTheSame(args: seq<Expr>, rest: string, number: Number -> string)
    requires ReparsedAll(args).Ok?
    ensures ArgsOnto(ReparsedAll(args).value, rest, number) == ArgsOnto(args, rest, number)
    decreases args, 1
  {
    if args != [] {
      var all := ReparsedAll(args).value;
      assert all[1..] == ReparsedAll(args[1..]).value;
      ArgsPrintTheSame(args[1..], rest, number);
      var after := if |args| == 1 then rest else "," + (" " + ArgsOnto(args[1..], rest, number));
      ReparsedPrintsTheSame(args[0], after, number);
    }
  }

  /** Whatever tree the printed text parses to, that tree prints as the same text. */
  lemma PrintedTextIsStable(e: Expr, parse: NumberParser, number: Number -> string)
    requires Printable(e) && Parse(Print(e, number), parse).Ok?
    ensures Print(Parse(Print(e, number), parse).value, number) == Print(e, number)
  {
    PrintedTextParses(e, parse, number);
    var v := Reparsed(e).value;
    ReparsedPrintsTheSame(e, [], number);
    PrintOntoIsPrint(v, [], number);
    PrintOntoIsPrint(e, [], number);
    assert Print(v, number) + [] == Print(v, number) && Print(e, number) + [] == Print(e, number);
  }
}
