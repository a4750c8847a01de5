/** The recursive-descent parser over a token list and a position (crates/expressions/src/parser). */
module Parser {
  import opened Text
  import opened Syntax
  import Grammar

  class Parser {
    const tokens: seq<Token>
    var pos: nat

    constructor (tokens: seq<Token>)
      ensures Valid() && this.tokens == tokens && pos == 0
    {
      this.tokens := tokens;
      pos := 0;
    }

    ghost predicate Valid()
      reads this
    {
      pos <= |tokens|
    }

    ghost function Left(): seq<Token>
      requires Valid()
      reads this
    {
      tokens[pos..]
    }

    /** The call returned what the grammar does, and left the tokens it leaves. */
    ghost predicate Reports<T(!new)>(spec: Result<(T, seq<Token>)>, r: Result<T>)
      reads this
    {
      && Valid()
      && match spec
         case Err(f) => r == Err(f)
         case Ok((value, rest)) => r == Ok(value) && Left() == rest
    }

    function Peek(): Option<Token>
      requires Valid()
      reads this
    {
      if pos < |tokens| then Some(tokens[pos]) else None
    }

    lemma PeekStarts()
      requires Valid()
      ensures forall t :: Grammar.Starts(Left(), t) <==> Peek() == Some(t)
      ensures Peek().Some? ==> Left() != [] && Left()[0] == Peek().value && tokens[pos + 1..] == Left()[1..]
    {
    }

    /** `parse_or`, `parse_and`, `parse_equality`, `parse_comparison`: the same loop over one level's operators. */
    method ParseLevel(level: nat) returns (r: Result<Expr>)
      requires Valid() && level <= Grammar.UNARY
      modifies this
      ensures Reports(Grammar.ParseLevel(level, old(Left())), r)
      decreases |tokens| - pos, 10 - level
    {
      if level == Grammar.UNARY {
        r := ParseUnary();
        return;
      }
      ghost var whole := Grammar.ParseLevel(level, Left());
      ghost var start := pos;
      r := ParseLevel(level + 1);
      if r.Err? {
        return;
      }
      var left := r.value;
      while Peek().Some? && Peek().value.Operator? && Grammar.LevelOf(Peek().value.op) == level
        invariant Valid() && start < pos
        invariant whole == Grammar.BinaryTail(level, left, Left())
        decreases |tokens| - pos
      {
        PeekStarts();
        var op := Peek().value.op;
        pos := pos + 1;
        r := ParseLevel(level + 1);
        if r.Err? {
          return;
        }
        left := BinaryOp(op, left, r.value);
      }
      return Ok(left);
    }

    method ParseUnary() returns (r: Result<Expr>)
      requires Valid()
      modifies this
      ensures Reports(Grammar.ParseUnary(old(Left())), r)
      decreases |tokens| - pos, 5
    {
      PeekStarts();
      if Peek() == Some(Bang) {
        pos := pos + 1;
        r := ParseUnary();
        if r.Ok? {
          r := Ok(Not(r.value));
        }
      } else {
        r := ParsePostfix();
      }
    }

    method ParsePostfix() returns (r: Result<Expr>)
      requires Valid()
      modifies this
      ensures Reports(Grammar.ParsePostfix(old(Left())), r)
      decreases |tokens| - pos, 4
    {
      PeekStarts();
      var literal := Peek().Some? && Grammar.IsLiteralToken(Peek().value);
      r := ParsePrimary();
      if r.Err? {
        return;
      }
      PeekStarts();
      if literal && (Peek() == Some(Dot) || Peek() == Some(LBracket)) {
        return Err(LiteralIndexed);
      }
      r := ParseAccesses(r.value);
    }

    /** The loop of `parse_postfix`. */
    method ParseAccesses(base: Expr) returns (r: Result<Expr>)
      requires Valid()
      modifies this
      ensures Reports(Grammar.PostfixTail(base, old(Left())), r)
      decreases |tokens| - pos, 12
    {
      ghost var whole := Grammar.PostfixTail(base, Left());
      ghost var start := pos;
      r := Ok(base);
      while Peek() == Some(Dot) || Peek() == Some(LBracket)
        invariant Valid() && start <= pos
        invariant r.Ok? && whole == Grammar.PostfixTail(r.value, Left())
        decreases |tokens| - pos
      {
        r := ParseAccess(r.value);
        if r.Err? {
          return;
        }
      }
      PeekStarts();
    }

    /** One turn of that loop. */
    method ParseAccess(base: Expr) returns (r: Result<Expr>)
      requires Valid() && (Peek() == Some(Dot) || Peek() == Some(LBracket))
      modifies this
      ensures Valid()
      ensures r.Err? ==> Grammar.PostfixTail(base, old(Left())) == Err(r.error)
      ensures r.Ok? ==> old(pos) < pos && Grammar.PostfixTail(base, old(Left())) == Grammar.PostfixTail(r.value, Left())
      decreases |tokens| - pos, 11
    {
      var dot := Peek() == Some(Dot);
      pos := pos + 1;
      if dot {
        r := ParseDotAccess(base);
      } else {
        r := ParseBracket(base);
      }
    }

    /** After a `.`: a property name or `*`. */
    method ParseDotAccess(base: Expr) returns (r: Result<Expr>)
      requires Valid() && pos > 0 && tokens[pos - 1] == Dot
      modifies this
      ensures Valid() && old(pos) <= pos
      ensures r.Err? ==> Grammar.PostfixTail(base, old(tokens[pos - 1..])) == Err(r.error)
      ensures r.Ok? ==> Grammar.PostfixTail(base, old(tokens[pos - 1..])) == Grammar.PostfixTail(r.value, Left())
    {
      ghost var all := tokens[pos - 1..];
      assert all[1..] == Left();
      PeekStarts();
      match Peek()
      case Some(Star) =>
        assert all[2..] == tokens[pos + 1..];
        pos := pos + 1;
        r := Ok(WildcardAccess(base));
      case Some(Ident(name)) =>
        assert all[1] == Ident(name) && all[2..] == tokens[pos + 1..];
        pos := pos + 1;
        r := Ok(PropertyAccess(base, name));
      case other => r := Err(UnexpectedToken);
    }

    /** After a `[`: an index or `*`, then `]`. */
    method ParseBracket(base: Expr) returns (r: Result<Expr>)
      requires Valid() && pos > 0 && tokens[pos - 1] == LBracket
      modifies this
      ensures Valid()
      ensures r.Err? ==> Grammar.PostfixTail(base, old(tokens[pos - 1..])) == Err(r.error)
      ensures r.Ok? ==> old(pos) <= pos
      ensures r.Ok? ==> Grammar.PostfixTail(base, old(tokens[pos - 1..])) == Grammar.PostfixTail(r.value, Left())
      decreases |tokens| - pos, 11
    {
      ghost var all := tokens[pos - 1..];
      assert all[1..] == Left();
      PeekStarts();
      if Peek() == Some(Star) {
        assert all[2..] == tokens[pos + 1..];
        pos := pos + 1;
        PeekStarts();
        if Peek() != Some(RBracket) {
          return Err(UnexpectedToken);
        }
        assert all[3..] == tokens[pos + 1..];
        pos := pos + 1;
        return Ok(WildcardAccess(base));
      }
      r := ParseLevel(0);
      if r.Err? {
        return;
      }
      PeekStarts();
      if Peek() != Some(RBracket) {
        return Err(UnexpectedToken);
      }
      pos := pos + 1;
      r := Ok(IndexAccess(base, r.value));
    }

    method ParsePrimary() returns (r: Result<Expr>)
      requires Valid()
      modifies this
      ensures Reports(Grammar.ParsePrimary(old(Left())), r)
      decreases |tokens| - pos, 3
    {
      PeekStarts();
      match Peek()
      case None => r := Err(UnexpectedToken);
      case Some(t) =>
        match t
        case StringLit(text) =>
          pos := pos + 1;
          r := Ok(Literal(Str(text)));
        case NumberLit(n) =>
          pos := pos + 1;
          r := Ok(Literal(Num(n)));
        case BoolLit(b) =>
          pos := pos + 1;
          r := Ok(Literal(Bool(b)));
        case NullLit =>
          pos := pos + 1;
          r := Ok(Literal(Null));
        case LParen =>
          pos := pos + 1;
          r := ParseLevel(0);
          if r.Ok? {
            PeekStarts();
            if Peek() != Some(RParen) {
              return Err(UnexpectedToken);
            }
            pos := pos + 1;
          }
        case Ident(name) =>
          pos := pos + 1;
          r := ParseIdent(name);
        case _ => r := Err(UnexpectedToken);
    }

    /** After a name: a call, or the named context. */
    method ParseIdent(name: string) returns (r: Result<Expr>)
      requires Valid() && pos > 0 && tokens[pos - 1] == Ident(name)
      modifies this
      ensures Reports(Grammar.ParsePrimary(old(tokens[pos - 1..])), r)
      decreases |tokens| - pos, 13
    {
      ghost var all := tokens[pos - 1..];
      assert all[0] == Ident(name) && all[1..] == Left();
      PeekStarts();
      if Peek() != Some(LParen) {
        return Ok(Context(name));
      }
      assert all[2..] == tokens[pos + 1..];
      pos := pos + 1;
      var args := ParseArgs();
      if args.Err? {
        return Err(args.error);
      }
      PeekStarts();
      if Peek() != Some(RParen) {
        return Err(UnexpectedToken);
      }
      pos := pos + 1;
      r := Ok(FunctionCall(name, args.value));
    }

    method ParseArgs() returns (r: Result<seq<Expr>>)
      requires Valid()
      modifies this
      ensures Reports(Grammar.ParseArgs(old(Left())), r)
      decreases |tokens| - pos, 11
    {
      PeekStarts();
      if Peek() == Some(RParen) {
        return Ok([]);
      }
      ghost var whole := Grammar.ParseArgs(Left());
      ghost var start := pos;
      var first := ParseLevel(0);
      if first.Err? {
        return Err(first.error);
      }
      var args := [first.value];
      while Peek() == Some(Comma)
        invariant Valid() && start < pos
        invariant whole == Grammar.ArgsTail(args, Left())
        decreases |tokens| - pos
      {
        PeekStarts();
        pos := pos + 1;
        var next := ParseLevel(0);
        if next.Err? {
          return Err(next.error);
        }
        args := args + [next.value];
      }
      PeekStarts();
      return Ok(args);
    }
  }

  /** `parse`, from the lexed tokens on. */
  method ParseAll(tokens: seq<Token>) returns (r: Result<Expr>)
    ensures r == Grammar.ParseTokens(tokens)
  {
    var p := new Parser(tokens);
    assert p.Left() == tokens;
    r := p.ParseLevel(0);
    if r.Ok? && p.pos < |p.tokens| {
      return Err(TrailingToken);
    }
  }
}
