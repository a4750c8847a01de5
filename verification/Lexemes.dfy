/**
 Any list of tokens, written out with whitespace between them, lexes back to itself (crates/expressions/src/lexer.rs);
 with the parser, every tree has a text that denotes it.
 */
module Lexemes {
  import opened Text
  import opened Syntax
  import opened Printer
  import opened Lexer
  import opened PrintedTokens
  import opened Reparse
  import opened Precedence

  // ------------------------------------------------------------------------ written tokens

  /** How a token is written; `number` writes every number but NaN and infinity. */
  function TokenText(t: Token, number: Number -> string): string {
    match t
    case Ident(name) => name
    case StringLit(text) => PrintLiteral(Str(text), number)
    case NumberLit(n) => if n == NaN then "NaN" else if n == Infinity(false) then "Infinity" else number(n)
    case BoolLit(b) => if b then "true" else "false"
    case NullLit => "null"
    case Dot => "."
    case LBracket => "["
    case RBracket => "]"
    case LParen => "("
    case RParen => ")"
    case Comma => ","
    case Star => "*"
    case Bang => "!"
    case Operator(op) => OperatorText(op)
  }

  /** Blanks, tabs, newlines, form feeds and returns. */
  predicate IsGap(gap: string) {
    gap != [] && forall i :: 0 <= i < |gap| ==> IsGapChar(gap[i])
  }

  predicate IsGapChar(c: char) {
    c == ' ' || c == '\t' || c == '\n' || c == 12 as char || c == '\r'
  }

  function Written(ts: seq<Token>, gap: string, number: Number -> string): string {
    if ts == [] then [] else TokenText(ts[0], number) + (gap + Written(ts[1..], gap, number))
  }

  /** A letter or an underscore, then letters, digits, underscores and hyphens. */
  predicate IsWord(s: string) {
    && s != [] && (IsLetter(s[0]) || s[0] == '_')
    && forall i :: 1 <= i < |s| ==> IsLetter(s[i]) || '0' <= s[i] <= '9' || s[i] == '_' || s[i] == '-'
  }

  predicate IsLetter(c: char) {
    'a' <= c <= 'z' || 'A' <= c <= 'Z'
  }

  /** At the start, after a comma, an opening bracket or an operator. */
  predicate OperandMayStart(prev: Option<Token>) {
    prev == None || prev.value == Comma || prev.value == LParen || prev.value == LBracket || prev.value == Bang
    || prev.value.Operator?
  }

  /** What a number ends at: whitespace, brackets, a comma, and the first character of an operator. */
  predicate IsDelimiter(c: char) {
    IsGapChar(c) || c in {'[', ']', '(', ')', ',', '!', '<', '>', '=', '&', '|'}
  }

  /** A text that the number parser reads as `n`, and that looks like a number after `prev`. */
  predicate WritesNumber(s: string, n: Number, prev: Option<Token>, parse: NumberParser) {
    && s != [] && parse(s) == Some(n)
    && ('0' <= s[0] <= '9' || s[0] == '+' || s[0] == '-' || (s[0] == '.' && OperandMayStart(prev)))
    && forall i :: 0 <= i < |s| ==> !IsDelimiter(s[i])
  }

  /** The token can stand after `prev`: a word after a dot is a name, elsewhere a name is no reserved word; a
      dot does not stand where a number may. */
  predicate CanFollow(t: Token, prev: Option<Token>, parse: NumberParser, number: Number -> string) {
    match t
    case Ident(name) => IsWord(name) && (prev == Some(Dot) || !IsReserved(name))
    case NumberLit(n) =>
      if n == NaN || n == Infinity(false) then prev != Some(Dot) else WritesNumber(number(n), n, prev, parse)
    case BoolLit(_) => prev != Some(Dot)
    case NullLit => prev != Some(Dot)
    case Dot => !OperandMayStart(prev)
    case _ => true
  }

  predicate Sound(ts: seq<Token>, prev: Option<Token>, parse: NumberParser, number: Number -> string)
    decreases |ts|
  {
    ts == [] || (CanFollow(ts[0], prev, parse, number) && Sound(ts[1..], Some(ts[0]), parse, number))
  }

  // ----------------------------------------------------------------------------- one token

  lemma {:induction false} LexGap(gap: string, rest: string, prev: Option<Token>, parse: NumberParser)
    requires gap == [] || IsGap(gap)
    ensures LexFrom(gap + rest, prev, parse) == LexFrom(rest, prev, parse)
    decreases |gap|
  {
    if gap == [] {
      assert gap + rest == rest;
    } else {
      var s := gap + rest;
      assert s[0] == gap[0] && s[1..] == gap[1..] + rest;
      LexGap(gap[1..], rest, prev, parse);
    }
  }

  lemma LexWord(word: string, gap: string, rest: string, prev: Option<Token>, parse: NumberParser)
    requires IsWord(word) && IsGap(gap)
    ensures LexFrom(word + (gap + rest), prev, parse)
         == Push(WordToken(word, prev), LexFrom(rest, Some(WordToken(word, prev)), parse))
  {
    assert (gap + rest)[0] == gap[0];
    LexName(word, gap + rest, prev, parse);
    LexGap(gap, rest, Some(WordToken(word, prev)), parse);
  }

  lemma {:induction false} NumberLengthOf(s: string, rest: string)
    requires (forall i :: 0 <= i < |s| ==> !IsDelimiter(s[i])) && (rest == [] || IsDelimiter(rest[0]))
    ensures NumberLength(s + rest) == |s|
    decreases |s|
  {
    if s == [] {
      assert s + rest == rest;
    } else {
      assert (s + rest)[0] == s[0] && (s + rest)[1..] == s[1..] + rest;
      NumberLengthOf(s[1..], rest);
    }
  }

  /** A number goes on up to the first delimiter. */
  lemma LexNumeral(s: string, n: Number, rest: string, prev: Option<Token>, parse: NumberParser)
    requires WritesNumber(s, n, prev, parse) && (rest == [] || IsDelimiter(rest[0]))
    ensures LexFrom(s + rest, prev, parse) == Push(NumberLit(n), LexFrom(rest, Some(NumberLit(n)), parse))
  {
    var text := s + rest;
    assert text[0] == s[0];
    NumberLengthOf(s, rest);
    assert text[..|s|] == s && text[|s|..] == rest;
  }

  lemma SignAt(op: BinaryOperator, s: string, prev: Option<Token>, parse: NumberParser)
    requires OperatorText(op) < s && IsGapChar(s[|OperatorText(op)|])
    ensures TokenAt(s, prev, parse) == Ok((Operator(op), |OperatorText(op)|))
  {
    assert s[0] == OperatorText(op)[0];
  }

  lemma LexSign(op: BinaryOperator, gap: string, rest: string, prev: Option<Token>, parse: NumberParser)
    requires IsGap(gap)
    ensures LexFrom(OperatorText(op) + (gap + rest), prev, parse)
         == Push(Operator(op), LexFrom(rest, Some(Operator(op)), parse))
  {
    var n, s := |OperatorText(op)|, OperatorText(op) + (gap + rest);
    assert s[n] == gap[0] && s[n..] == gap + rest && s[0] == OperatorText(op)[0];
    SignAt(op, s, prev, parse);
    LexGap(gap, rest, Some(Operator(op)), parse);
  }

  /** A token of one character. */
  predicate IsMark(c: char, t: Token, prev: Option<Token>) {
    Symbol(c) == Some(t) || (c == '!' && t == Bang) || (c == '.' && t == Dot && !OperandMayStart(prev))
  }

  lemma MarkAt(c: char, t: Token, s: string, prev: Option<Token>, parse: NumberParser)
    requires IsMark(c, t, prev) && |s| > 1 && s[0] == c && IsGapChar(s[1])
    ensures TokenAt(s, prev, parse) == Ok((t, 1))
  {
  }

  lemma LexMark(c: char, t: Token, gap: string, rest: string, prev: Option<Token>, parse: NumberParser)
    requires IsGap(gap) && IsMark(c, t, prev)
    ensures LexFrom([c] + (gap + rest), prev, parse) == Push(t, LexFrom(rest, Some(t), parse))
  {
    var s := [c] + (gap + rest);
    assert s[0] == c && s[1] == gap[0] && s[1..] == gap + rest;
    MarkAt(c, t, s, prev, parse);
    LexGap(gap, rest, Some(t), parse);
  }

  lemma LexText(text: string, gap: string, rest: string, prev: Option<Token>, parse: NumberParser,
                number: Number -> string)
    requires IsGap(gap)
    ensures LexFrom(PrintLiteral(Str(text), number) + (gap + rest), prev, parse)
         == Push(StringLit(text), LexFrom(rest, Some(StringLit(text)), parse))
  {
    assert (gap + rest)[0] == gap[0];
    LexQuoted(text, gap + rest, prev, parse);
    LexGap(gap, rest, Some(StringLit(text)), parse);
  }

  lemma LexOne(t: Token, gap: string, rest: string, prev: Option<Token>, parse: NumberParser,
               number: Number -> string)
    requires CanFollow(t, prev, parse, number) && IsGap(gap)
    ensures LexFrom(TokenText(t, number) + (gap + rest), prev, parse) == Push(t, LexFrom(rest, Some(t), parse))
  {
    match t
    case Ident(name) => LexWord(name, gap, rest, prev, parse);
    case StringLit(text) => LexText(text, gap, rest, prev, parse, number);
    case NumberLit(n) =>
      if n == NaN {
        LexWord("NaN", gap, rest, prev, parse);
      } else if n == Infinity(false) {
        LexWord("Infinity", gap, rest, prev, parse);
      } else {
        assert (gap + rest)[0] == gap[0];
        LexNumeral(number(n), n, gap + rest, prev, parse);
        LexGap(gap, rest, Some(t), parse);
      }
    case BoolLit(b) => LexWord(if b then "true" else "false", gap, rest, prev, parse);
    case NullLit => LexWord("null", gap, rest, prev, parse);
    case Operator(op) => LexSign(op, gap, rest, prev, parse);
    case _ => LexMark(TokenText(t, number)[0], t, gap, rest, prev, parse);
  }

  /** Any sound list of tokens, written with any whitespace between them, lexes back to itself. */
  lemma {:induction false} TokensReadBack(ts: seq<Token>, gap: string, prev: Option<Token>, parse: NumberParser,
                                          number: Number -> string)
    requires Sound(ts, prev, parse, number) && IsGap(gap)
    ensures LexFrom(Written(ts, gap, number), prev, parse) == Ok(ts)
    decreases |ts|
  {
    if ts != [] {
      TokensReadBack(ts[1..], gap, Some(ts[0]), parse, number);
      LexOne(ts[0], gap, Written(ts[1..], gap, number), prev, parse, number);
      assert [ts[0]] + ts[1..] == ts;
    }
  }

  // ------------------------------------------------------------------- the tokens of a tree

  /** Written by digits and a sign, as the number parser reads it. */
  predicate HasNumeral(n: Number, parse: NumberParser, number: Number -> string) {
    || n == NaN || n == Infinity(false)
    || (WritesNumber(number(n), n, None, parse) && number(n)[0] != '.')
  }

  /** Legal names throughout, numbers that can be written, and no array and object literals. */
  predicate Spellable(e: Expr, parse: NumberParser, number: Number -> string)
    decreases e
  {
    match e
    case Literal(value) => !value.Array? && !value.Object? && (value.Num? ==> HasNumeral(value.n, parse, number))
    case Context(name) => IsWord(name) && !IsReserved(name)
    case PropertyAccess(base, property) => Spellable(base, parse, number) && IsWord(property)
    case IndexAccess(base, index) => Spellable(base, parse, number) && Spellable(index, parse, number)
    case WildcardAccess(base) => Spellable(base, parse, number)
    case FunctionCall(name, args) => IsWord(name) && !IsReserved(name) && AllSpellable(args, parse, number)
    case Not(operand) => Spellable(operand, parse, number)
    case BinaryOp(_, left, right) => Spellable(left, parse, number) && Spellable(right, parse, number)
  }

  predicate AllSpellable(args: seq<Expr>, parse: NumberParser, number: Number -> string)
    decreases args
  {
    args == [] || (Spellable(args[0], parse, number) && AllSpellable(args[1..], parse, number))
  }

  lemma {:induction false} SpellableIsWritable(e: Expr, parse: NumberParser, number: Number -> string)
    requires Spellable(e, parse, number)
    ensures Writable(e)
    decreases e
  {
    match e
    case Literal(_) =>
    case Context(_) =>
    case PropertyAccess(base, _) => SpellableIsWritable(base, parse, number);
    case IndexAccess(base, index) =>
      SpellableIsWritable(base, parse, number);
      SpellableIsWritable(index, parse, number);
    case WildcardAccess(base) => SpellableIsWritable(base, parse, number);
    case FunctionCall(_, args) => AllSpellableAreWritable(args, parse, number);
    case Not(operand) => SpellableIsWritable(operand, parse, number);
    case BinaryOp(_, left, right) =>
      SpellableIsWritable(left, parse, number);
      SpellableIsWritable(right, parse, number);
  }

  lemma {:induction false} AllSpellableAreWritable(args: seq<Expr>, parse: NumberParser, number: Number -> string)
    requires AllSpellable(args, parse, number)
    ensures AllWritable(args)
    decreases args
  {
    if args != [] {
      SpellableIsWritable(args[0], parse, number);
      AllSpellableAreWritable(args[1..], parse, number);
    }
  }

  /** The last token of a tree, and of an operand with or without parentheses. */
  function LastOf(e: Expr): Token
    decreases e, 0
  {
    match e
    case Literal(value) => LiteralToken(value)
    case Context(name) => Ident(name)
    case PropertyAccess(_, property) => Ident(property)
    case IndexAccess(_, _) => RBracket
    case WildcardAccess(_) => Star
    case FunctionCall(_, _) => RParen
    case Not(operand) => LastIn(operand.BinaryOp?, operand)
    case BinaryOp(op, _, right) => LastIn(RightNeeds(op, right), right)
  }

  function LastIn(parens: bool, e: Expr): Token
    decreases e, 1
  {
    if parens then RParen else LastOf(e)
  }

  lemma {:induction false} NoNumberAfterLast(e: Expr)
    ensures !OperandMayStart(Some(LastOf(e)))
    decreases e
  {
    match e
    case Not(operand) => NoNumberAfterLast(operand);
    case BinaryOp(_, _, right) => NoNumberAfterLast(right);
    case _ =>
  }

  lemma SoundFirst(t: Token, ts: seq<Token>, prev: Option<Token>, parse: NumberParser, number: Number -> string)
    requires CanFollow(t, prev, parse, number) && Sound(ts, Some(t), parse, number)
    ensures Sound([t] + ts, prev, parse, number)
  {
    assert ([t] + ts)[1..] == ts;
  }

  lemma SoundDot(base: Expr, t: Token, rest: seq<Token>, parse: NumberParser, number: Number -> string)
    requires CanFollow(t, Some(Dot), parse, number) && Sound(rest, Some(t), parse, number)
    ensures Sound([Dot] + ([t] + rest), Some(LastIn(BaseNeeds(base), base)), parse, number)
  {
    NoNumberAfterLast(base);
    SoundFirst(t, rest, Some(Dot), parse, number);
    SoundFirst(Dot, [t] + rest, Some(LastIn(BaseNeeds(base), base)), parse, number);
  }

  lemma LiteralFollows(value: Value, prev: Option<Token>, parse: NumberParser, number: Number -> string)
    requires Spellable(Literal(value), parse, number) && prev != Some(Dot)
    ensures CanFollow(LiteralToken(value), prev, parse, number)
  {
  }

  /** The tokens of a spellable tree are sound where they stand. */
  lemma {:induction false} NeatIsSound(e: Expr, rest: seq<Token>, prev: Option<Token>, parse: NumberParser,
                                       number: Number -> string)
    requires Spellable(e, parse, number) && prev != Some(Dot) && Sound(rest, Some(LastOf(e)), parse, number)
    ensures Sound(Neat(e, rest), prev, parse, number)
    decreases e, 2
  {
    match e
    case Literal(value) =>
      LiteralFollows(value, prev, parse, number);
      SoundFirst(LiteralToken(value), rest, prev, parse, number);
    case Context(name) => SoundFirst(Ident(name), rest, prev, parse, number);
    case PropertyAccess(base, property) =>
      SoundDot(base, Ident(property), rest, parse, number);
      InIsSound(BaseNeeds(base), base, [Dot] + ([Ident(property)] + rest), prev, parse, number);
    case IndexAccess(base, index) => IndexIsSound(base, index, rest, prev, parse, number);
    case WildcardAccess(base) =>
      SoundDot(base, Star, rest, parse, number);
      InIsSound(BaseNeeds(base), base, [Dot] + ([Star] + rest), prev, parse, number);
    case FunctionCall(name, args) =>
      ArgsAreSound(args, [RParen] + rest, LParen, parse, number);
      SoundFirst(LParen, NeatArgs(args, [RParen] + rest), Some(Ident(name)), parse, number);
      SoundFirst(Ident(name), [LParen] + NeatArgs(args, [RParen] + rest), prev, parse, number);
    case Not(operand) =>
      InIsSound(operand.BinaryOp?, operand, rest, Some(Bang), parse, number);
      SoundFirst(Bang, NeatIn(operand.BinaryOp?, operand, rest), prev, parse, number);
    case BinaryOp(op, left, right) =>
      var after := NeatIn(RightNeeds(op, right), right, rest);
      InIsSound(RightNeeds(op, right), right, rest, Some(Operator(op)), parse, number);
      SoundFirst(Operator(op), after, Some(LastIn(LeftNeeds(op, left), left)), parse, number);
      InIsSound(LeftNeeds(op, left), left, [Operator(op)] + after, prev, parse, number);
  }

  lemma {:induction false} IndexIsSound(base: Expr, index: Expr, rest: seq<Token>, prev: Option<Token>,
                                        parse: NumberParser, number: Number -> string)
    requires Spellable(base, parse, number) && Spellable(index, parse, number) && prev != Some(Dot)
    requires Sound(rest, Some(RBracket), parse, number)
    ensures Sound(Neat(IndexAccess(base, index), rest), prev, parse, number)
    decreases IndexAccess(base, index), 0
  {
    var inner := Neat(index, [RBracket] + rest);
    SoundFirst(RBracket, rest, Some(LastOf(index)), parse, number);
    NeatIsSound(index, [RBracket] + rest, Some(LBracket), parse, number);
    SoundFirst(LBracket, inner, Some(LastIn(BaseNeeds(base), base)), parse, number);
    InIsSound(BaseNeeds(base), base, [LBracket] + inner, prev, parse, number);
  }

  lemma {:induction false} InIsSound(parens: bool, e: Expr, rest: seq<Token>, prev: Option<Token>, parse: NumberParser,
                                     number: Number -> string)
    requires Spellable(e, parse, number) && prev != Some(Dot) && Sound(rest, Some(LastIn(parens, e)), parse, number)
    ensures Sound(NeatIn(parens, e, rest), prev, parse, number)
    decreases e, 3
  {
    if parens {
      SoundFirst(RParen, rest, Some(LastOf(e)), parse, number);
      NeatIsSound(e, [RParen] + rest, Some(LParen), parse, number);
      SoundFirst(LParen, Neat(e, [RParen] + rest), prev, parse, number);
    } else {
      NeatIsSound(e, rest, prev, parse, number);
    }
  }

  lemma {:induction false} ArgsAreSound(args: seq<Expr>, rest: seq<Token>, open: Token, parse: NumberParser,
                                        number: Number -> string)
    requires AllSpellable(args, parse, number) && open != Dot
    requires rest != [] && rest[0] == RParen && Sound(rest[1..], Some(RParen), parse, number)
    ensures Sound(NeatArgs(args, rest), Some(open), parse, number)
    decreases args, 4
  {
    if |args| == 1 {
      NeatIsSound(args[0], rest, Some(open), parse, number);
    } else if args != [] {
      ArgsAreSound(args[1..], rest, Comma, parse, number);
      SoundFirst(Comma, NeatArgs(args[1..], rest), Some(LastOf(args[0])), parse, number);
      NeatIsSound(args[0], [Comma] + NeatArgs(args[1..], rest), Some(open), parse, number);
    }
  }

  /** Every spellable tree is denoted by a text: its tokens with only the needed parentheses, with any
      whitespace between them. */
  lemma NeatTextParses(e: Expr, gap: string, parse: NumberParser, number: Number -> string)
    requires Spellable(e, parse, number) && IsGap(gap)
    ensures Parse(Written(Neat(e, []), gap, number), parse) == Ok(e)
  {
    NeatIsSound(e, [], None, parse, number);
    TokensReadBack(Neat(e, []), gap, None, parse, number);
    SpellableIsWritable(e, parse, number);
    NeatParses(e);
  }
}
