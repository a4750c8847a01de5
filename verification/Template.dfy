/** Interpolating `${{ expression }}` templates (crates/expressions/src/template.rs). */
module Template {
  import opened Text
  import opened Syntax
  import opened Printer
  import opened PrintedTokens

  const OPEN: string := "${{"
  const CLOSE: string := "}}"

  // ------------------------------------------------------------ the closing delimiter

  /** The text from the first `}}` outside single quotes on. */
  function Closing(s: string, quoted: bool): (r: Option<string>)
    ensures r.Some? ==> 2 <= |r.value| <= |s| && CLOSE <= r.value && s[|s| - |r.value|..] == r.value
    decreases |s|
  {
    if s == [] then None
    else if s[0] == '\'' then
      if quoted && |s| > 1 && s[1] == '\'' then Closing(s[2..], quoted) else Closing(s[1..], !quoted)
    else if !quoted && CLOSE <= s then Some(s)
    else Closing(s[1..], quoted)
  }

  /** How far one look at the input moves the scan, and whether it is inside quotes then. */
  function Scanned(input: string, i: nat, quoted: bool): (nat, bool)
    requires i < |input|
  {
    if input[i] != '\'' then (i + 1, quoted)
    else if quoted && i + 1 < |input| && input[i + 1] == '\'' then (i + 2, quoted)
    else (i + 1, !quoted)
  }

  predicate ClosesAt(input: string, i: nat, quoted: bool) {
    !quoted && i + 1 < |input| && input[i] == '}' && input[i + 1] == '}'
  }

  lemma ScanStep(input: string, i: nat, quoted: bool)
    requires i < |input|
    ensures Scanned(input, i, quoted).0 <= |input|
    ensures if ClosesAt(input, i, quoted) then Closing(input[i..], quoted) == Some(input[i..])
            else Closing(input[i..], quoted)
                 == Closing(input[Scanned(input, i, quoted).0..], Scanned(input, i, quoted).1)
  {
    var rest := input[i..];
    assert rest[1..] == input[i + 1..];
    if i + 1 < |input| {
      assert rest[1] == input[i + 1] && rest[2..] == input[i + 2..];
    }
    assert CLOSE <= rest <==> i + 1 < |input| && input[i] == '}' && input[i + 1] == '}';
  }

  /** `expression_end`: where the closing delimiter starts. */
  method ExpressionEnd(input: string) returns (end: Option<nat>)
    ensures match Closing(input, false)
            case None => end == None
            case Some(tail) => end == Some(|input| - |tail|)
  {
    var quoted := false;
    var i := 0;
    assert input[0..] == input;
    while i < |input|
      invariant 0 <= i <= |input|
      invariant Closing(input, false) == Closing(input[i..], quoted)
    {
      ScanStep(input, i, quoted);
      if input[i] == '\'' {
        if quoted && i + 1 < |input| && input[i + 1] == '\'' {
          i := i + 2;
        } else {
          quoted := !quoted;
          i := i + 1;
        }
      } else if !quoted && input[i] == '}' && i + 1 < |input| && input[i + 1] == '}' {
        return Some(i);
      } else {
        i := i + 1;
      }
    }
    return None;
  }

  // ----------------------------------------------------------------- interpolation

  type Evaluator = string -> Result<string>

  function After(text: string, r: Result<string>): Result<string> {
    match r
    case Err(f) => Err(f)
    case Ok(more) => Ok(text + more)
  }

  /** Text, one placeholder's value, and what follows; the earlier failure wins. */
  function FillIn(text: string, shown: Result<string>, rest: Result<string>): Result<string> {
    match shown
    case Err(f) => Err(f)
    case Ok(value) => After(text + value, rest)
  }

  function Interpolated(s: string, eval: Evaluator): Result<string>
    decreases |s|
  {
    match SplitOnce(s, OPEN)
    case None => Ok(s)
    case Some((before, inside)) =>
      SplitOnceParts(s, OPEN);
      match Closing(inside, false)
      case None => Err(UnclosedExpression)
      case Some(tail) =>
        FillIn(before, eval(Trim(inside[..|inside| - |tail|])), Interpolated(tail[2..], eval))
  }

  lemma {:induction false} SplitOnceParts(s: string, p: string)
    requires p != [] && SplitOnce(s, p).Some?
    ensures |SplitOnce(s, p).value.0| + |p| + |SplitOnce(s, p).value.1| == |s|
  {
    if !(p <= s) {
      SplitOnceParts(s[1..], p);
    }
  }

  lemma AfterTwice(a: string, b: string, r: Result<string>)
    ensures After(a, After(b, r)) == After(a + b, r)
  {
    if r.Ok? {
      ConcatAssoc(a, b, r.value);
    }
  }

  /** `interpolate`; `eval` evaluates an expression and renders its value as text. */
  method Interpolate(input: string, eval: Evaluator) returns (r: Result<string>)
    ensures r == Interpolated(input, eval)
  {
    var result, rest := [], input;
    var found := SplitOnce(rest, OPEN);
    AfterNothing(Interpolated(input, eval));
    while found.Some?
      invariant found == SplitOnce(rest, OPEN)
      invariant Interpolated(input, eval) == After(result, Interpolated(rest, eval))
      decreases |rest|
    {
      SplitOnceParts(rest, OPEN);
      var before, inside := found.value.0, found.value.1;
      result := result + before;
      var end := ExpressionEnd(inside);
      if end == None {
        return Err(UnclosedExpression);
      }
      var value := eval(Trim(inside[..end.value]));
      if value.Err? {
        return Err(value.error);
      }
      ghost var tail := Closing(inside, false).value;
      assert inside[end.value..] == tail && inside[end.value + 2..] == tail[2..];
      AfterTwice(result[..|result| - |before|], before + value.value, Interpolated(inside[end.value + 2..], eval));
      Regroup(result, before, value.value);
      result := result + value.value;
      rest := inside[end.value + 2..];
      found := SplitOnce(rest, OPEN);
    }
    return Ok(result + rest);
  }

  lemma Regroup(result: string, before: string, shown: string)
    requires |before| <= |result| && result[|result| - |before|..] == before
    ensures result[..|result| - |before|] + (before + shown) == result + shown
  {
  }

  lemma AfterNothing(r: Result<string>)
    ensures After([], r) == r
  {
    if r.Ok? {
      assert [] + r.value == r.value;
    }
  }

  // ------------------------------------------------------ printed text is passed over

  predicate Quiet(text: string) {
    forall i :: 0 <= i < |text| ==> text[i] != '\'' && text[i] != '}'
  }

  lemma {:induction false} PassQuiet(text: string, rest: string)
    requires Quiet(text)
    ensures Closing(text + rest, false) == Closing(rest, false)
    decreases |text|
  {
    if text == [] {
      assert text + rest == rest;
    } else {
      var s := text + rest;
      assert s[0] == text[0] && s[1..] == text[1..] + rest;
      PassQuiet(text[1..], rest);
    }
  }

  lemma {:induction false} PassDoubled(text: string, rest: string)
    requires rest == [] || rest[0] != '\''
    ensures Closing(Doubled(text) + ("\'" + rest), true) == Closing(rest, false)
    decreases |text|
  {
    var s := Doubled(text) + ("\'" + rest);
    if text == [] {
      assert s == "\'" + rest && s[1..] == rest;
      assert |s| > 1 ==> s[1] == rest[0];
    } else {
      var first := if text[0] == '\'' then "\'\'" else [text[0]];
      ConcatAssoc(first, Doubled(text[1..]), "\'" + rest);
      assert s[0] == first[0] && s[|first|..] == Doubled(text[1..]) + ("\'" + rest);
      assert |first| == 2 ==> s[1] == '\'';
      PassDoubled(text[1..], rest);
    }
  }

  lemma PassQuoted(text: string, rest: string)
    requires rest == [] || rest[0] != '\''
    ensures Closing(("\'" + (Doubled(text) + "\'")) + rest, false) == Closing(rest, false)
  {
    var s := ("\'" + (Doubled(text) + "\'")) + rest;
    assert s[0] == '\'' && s[1..] == Doubled(text) + ("\'" + rest);
    PassDoubled(text, rest);
  }

  lemma PassLiteral(value: Value, rest: string, number: Number -> string)
    requires value.Str? || value.Null? || value.Bool?
    requires rest == [] || rest[0] != '\''
    ensures Closing(PrintLiteral(value, number) + rest, false) == Closing(rest, false)
  {
    match value
    case Str(text) =>
      PassQuoted(text, rest);
    case Null => PassQuiet(NULL, rest);
    case Bool(b) => PassQuiet(if b then TRUE else FALSE, rest);
    case Num(_) =>
    case Array(_, _, _) =>
    case Object(_, _) =>
  }

  predicate NoQuote(rest: string) {
    rest == [] || rest[0] != '\''
  }

  lemma PassDot(name: string, rest: string)
    requires IsLegalName(name)
    ensures Closing("." + (name + rest), false) == Closing(rest, false)
  {
    PassTwo(".", name, rest);
  }

  lemma PassTwo(a: string, b: string, rest: string)
    requires Quiet(a) && Quiet(b)
    ensures Closing(a + (b + rest), false) == Closing(rest, false)
  {
    PassQuiet(a, b + rest);
    PassQuiet(b, rest);
  }

  /** Scanning past a printed tree ends outside quotes, having met no delimiter. */
  lemma {:induction false} PassPrinted(e: Expr, rest: string, number: Number -> string)
    requires Printable(e) && NoQuote(rest)
    ensures Closing(PrintOnto(e, rest, number), false) == Closing(rest, false)
    decreases e, 1
  {
    match e
    case Literal(value) => PassLiteral(value, rest, number);
    case Context(name) => PassQuiet(name, rest);
    case PropertyAccess(base, property) =>
      PassPrinted(base, "." + (property + rest), number);
      PassDot(property, rest);
    case IndexAccess(base, index) =>
      if PrintsAsProperty(index) {
        PassPrinted(base, "." + (index.value.text + rest), number);
        PassDot(index.value.text, rest);
      } else {
        PassPrinted(base, "[" + PrintOnto(index, "]" + rest, number), number);
        PassBracket(index, rest, number);
      }
    case WildcardAccess(base) =>
      PassPrinted(base, "." + ("*" + rest), number);
      PassTwo(".", "*", rest);
    case FunctionCall(name, args) =>
      PassTwo(name, "(", ArgsOnto(args, ")" + rest, number));
      PassArgs(args, ")" + rest, number);
      PassQuiet(")", rest);
    case Not(operand) =>
      PassQuiet("!", PrintOnto(operand, rest, number));
      PassPrinted(operand, rest, number);
    case BinaryOp(op, left, right) =>
      PassQuiet("(", PrintOnto(left, RightOnto(op, right, rest, number), number));
      PassPrinted(left, RightOnto(op, right, rest, number), number);
      PassRight(op, right, rest, number);
  }

  lemma {:induction false} PassBracket(index: Expr, rest: string, number: Number -> string)
    requires Printable(index)
    ensures Closing("[" + PrintOnto(index, "]" + rest, number), false) == Closing(rest, false)
    decreases index, 2
  {
    PassQuiet("[", PrintOnto(index, "]" + rest, number));
    PassPrinted(index, "]" + rest, number);
    PassQuiet("]", rest);
  }

  lemma {:induction false} PassRight(op: BinaryOperator, right: Expr, rest: string, number: Number -> string)
    requires Printable(right)
    ensures Closing(RightOnto(op, right, rest, number), false) == Closing(rest, false)
    decreases right, 2
  {
    var shown := PrintOnto(right, ")" + rest, number);
    PassTwo(" ", OperatorText(op), " " + shown);
    PassQuiet(" ", shown);
    PassPrinted(right, ")" + rest, number);
    PassQuiet(")", rest);
  }

  lemma {:induction false} PassArgs(args: seq<Expr>, rest: string, number: Number -> string)
    requires AllPrintable(args) && NoQuote(rest)
    ensures Closing(ArgsOnto(args, rest, number), false) == Closing(rest, false)
    decreases args, 1
  {
    if |args| == 1 {
      PassPrinted(args[0], rest, number);
    } else if |args| > 1 {
      var more := ArgsOnto(args[1..], rest, number);
      PassPrinted(args[0], "," + (" " + more), number);
      PassTwo(",", " ", more);
      PassArgs(args[1..], rest, number);
    }
  }

  /** A printed tree between single spaces, as the template shows it, up to a suffix. */
  function Wrapped(e: Expr, suffix: string, number: Number -> string): string {
    " " + (Print(e, number) + (" " + (CLOSE + suffix)))
  }

  lemma ClosesHere(suffix: string)
    ensures Closing(CLOSE + suffix, false) == Some(CLOSE + suffix)
  {
  }

  lemma BeforeClose(text: string, close: string)
    ensures var s := " " + (text + (" " + close)); s[..|s| - |close|] == " " + text + " "
  {
  }

  /** `expression_end` stops exactly after the printed text, whatever its literals and the suffix hold. */
  lemma EndIsAfterThePrintedText(e: Expr, suffix: string, number: Number -> string)
    requires Printable(e)
    ensures Closing(Wrapped(e, suffix, number), false) == Some(CLOSE + suffix)
    ensures Wrapped(e, suffix, number)[..|Wrapped(e, suffix, number)| - |CLOSE + suffix|]
         == " " + Print(e, number) + " "
  {
    PrintOntoIsPrint(e, " " + (CLOSE + suffix), number);
    PassPrinted(e, " " + (CLOSE + suffix), number);
    ClosesHere(suffix);
    BeforeClose(Print(e, number), CLOSE + suffix);
  }

  // -------------------------------------------------------- templates with several holes

  /** Text and then a placeholder. */
  datatype Hole = Hole(text: string, e: Expr)

  /** The template the holes and the text after them are written as. */
  function Written(holes: seq<Hole>, tail: string, number: Number -> string): string {
    if holes == [] then tail
    else holes[0].text + (OPEN + Wrapped(holes[0].e, Written(holes[1..], tail, number), number))
  }

  /** Each placeholder replaced by the text of its value, the first failure reported. */
  function Filled(holes: seq<Hole>, tail: string, eval: Evaluator, number: Number -> string): Result<string> {
    if holes == [] then Ok(tail)
    else FillIn(holes[0].text, eval(Print(holes[0].e, number)), Filled(holes[1..], tail, eval, number))
  }

  /** The texts and the values in turn. */
  function Interleaved(holes: seq<Hole>, values: seq<string>, tail: string): string
    requires |values| == |holes|
  {
    if holes == [] then tail else holes[0].text + (values[0] + Interleaved(holes[1..], values[1..], tail))
  }

  predicate AllShow(holes: seq<Hole>, values: seq<string>, eval: Evaluator, number: Number -> string) {
    |values| == |holes| && forall i :: 0 <= i < |holes| ==> eval(Print(holes[i].e, number)) == Ok(values[i])
  }

  lemma {:induction false} FilledWithValues(holes: seq<Hole>, values: seq<string>, tail: string, eval: Evaluator,
                                            number: Number -> string)
    requires AllShow(holes, values, eval, number)
    ensures Filled(holes, tail, eval, number) == Ok(Interleaved(holes, values, tail))
    decreases |holes|
  {
    if holes != [] {
      FilledWithValues(holes[1..], values[1..], tail, eval, number);
      ConcatAssoc(holes[0].text, values[0], Interleaved(holes[1..], values[1..], tail));
    }
  }

  lemma {:induction false} FilledFails(holes: seq<Hole>, k: nat, tail: string, eval: Evaluator,
                                       number: Number -> string)
    requires k < |holes| && eval(Print(holes[k].e, number)).Err?
    requires forall i :: 0 <= i < k ==> eval(Print(holes[i].e, number)).Ok?
    ensures Filled(holes, tail, eval, number) == Err(eval(Print(holes[k].e, number)).error)
    decreases |holes|
  {
    if k > 0 {
      FilledFails(holes[1..], k - 1, tail, eval, number);
    }
  }

  predicate OpensNothing(text: string) {
    forall i :: 0 <= i < |text| ==> !(OPEN <= text[i..])
  }

  predicate WellFormed(holes: seq<Hole>) {
    forall i :: 0 <= i < |holes| ==> OpensNothing(holes[i].text) && Printable(holes[i].e)
  }

  lemma {:induction false} NothingToSplit(text: string)
    requires OpensNothing(text)
    ensures SplitOnce(text, OPEN) == None
    decreases |text|
  {
    if text != [] {
      assert text[0..] == text;
      forall i | 0 <= i < |text[1..]| ensures !(OPEN <= text[1..][i..]) {
        assert text[1..][i..] == text[i + 1..];
      }
      NothingToSplit(text[1..]);
    }
  }

  lemma OpenStartsLater(text: string, more: string)
    requires OpensNothing(text) && text != []
    ensures !(OPEN <= text + (OPEN + more))
  {
    var s := text + (OPEN + more);
    assert text[0..] == text;
    if |text| >= 3 {
      assert s[..3] == text[..3];
    } else if |text| == 2 {
      assert s[2] == OPEN[0] && s[2] != OPEN[2];
    } else {
      assert s[1] == OPEN[0] && s[1] != OPEN[1];
    }
  }

  lemma {:induction false} SplitAtHole(text: string, more: string)
    requires OpensNothing(text)
    ensures SplitOnce(text + (OPEN + more), OPEN) == Some((text, more))
    decreases |text|
  {
    var s := text + (OPEN + more);
    if text == [] {
      assert s == OPEN + more && s[|OPEN|..] == more;
    } else {
      OpenStartsLater(text, more);
      forall i | 0 <= i < |text[1..]| ensures !(OPEN <= text[1..][i..]) {
        assert text[1..][i..] == text[i + 1..];
      }
      SplitAtHole(text[1..], more);
      assert s[1..] == text[1..] + (OPEN + more);
      assert [text[0]] + text[1..] == text;
    }
  }

  // -------------------------------------------------------- trimming around the text

  predicate Solid(text: string) {
    text != [] && !IsWhitespace(text[0]) && !IsWhitespace(text[|text| - 1])
  }

  lemma TrimSpaced(text: string)
    requires Solid(text)
    ensures Trim(" " + text + " ") == text
  {
    var s := " " + text + " ";
    assert s[1..] == text + " " && (text + " ")[0] == text[0];
    assert TrimStart(s) == text + " ";
    assert (text + " ")[|text|] == ' ' && (text + " ")[..|text|] == text;
    assert TrimEnd(text + " ") == TrimEnd(text);
  }

  lemma NameIsSolid(name: string)
    requires IsLegalName(name)
    ensures Solid(name)
  {
  }

  lemma {:induction false} PrintedIsSolid(e: Expr, number: Number -> string)
    requires Printable(e)
    ensures Solid(Print(e, number))
    decreases e
  {
    match e
    case Literal(value) =>
    case Context(name) => NameIsSolid(name);
    case PropertyAccess(base, property) =>
      PrintedIsSolid(base, number);
      NameIsSolid(property);
    case IndexAccess(base, index) =>
      PrintedIsSolid(base, number);
      if PrintsAsProperty(index) {
        NameIsSolid(index.value.text);
      }
    case WildcardAccess(base) => PrintedIsSolid(base, number);
    case FunctionCall(name, args) => NameIsSolid(name);
    case Not(operand) => PrintedIsSolid(operand, number);
    case BinaryOp(_, _, _) =>
  }

  lemma InterpolatedOnce(s: string, before: string, inside: string, tail: string, eval: Evaluator)
    requires SplitOnce(s, OPEN) == Some((before, inside)) && Closing(inside, false) == Some(tail)
    ensures Interpolated(s, eval)
         == FillIn(before, eval(Trim(inside[..|inside| - |tail|])), Interpolated(tail[2..], eval))
  {
  }

  lemma OneHole(hole: Hole, more: string, eval: Evaluator, number: Number -> string)
    requires OpensNothing(hole.text) && Printable(hole.e)
    ensures Interpolated(hole.text + (OPEN + Wrapped(hole.e, more, number)), eval)
         == FillIn(hole.text, eval(Print(hole.e, number)), Interpolated(more, eval))
  {
    SplitAtHole(hole.text, Wrapped(hole.e, more, number));
    EndIsAfterThePrintedText(hole.e, more, number);
    PrintedIsSolid(hole.e, number);
    TrimSpaced(Print(hole.e, number));
    assert (CLOSE + more)[2..] == more;
    InterpolatedOnce(hole.text + (OPEN + Wrapped(hole.e, more, number)), hole.text, Wrapped(hole.e, more, number),
                     CLOSE + more, eval);
  }

  /** Interpolating a written template fills exactly its holes, left to right. */
  lemma {:induction false} InterpolationFillsTheHoles(holes: seq<Hole>, tail: string, eval: Evaluator,
                                                      number: Number -> string)
    requires WellFormed(holes) && OpensNothing(tail)
    ensures Interpolated(Written(holes, tail, number), eval) == Filled(holes, tail, eval, number)
    decreases |holes|
  {
    if holes == [] {
      NothingToSplit(tail);
    } else {
      OneHole(holes[0], Written(holes[1..], tail, number), eval, number);
      InterpolationFillsTheHoles(holes[1..], tail, eval, number);
    }
  }

  /** When every hole has a value, the values stand in the holes; else the first failure from the left is reported. */
  lemma InterpolationMeaning(holes: seq<Hole>, values: seq<string>, k: nat, tail: string, eval: Evaluator,
                             number: Number -> string)
    requires WellFormed(holes) && OpensNothing(tail)
    ensures AllShow(holes, values, eval, number) ==>
              Interpolated(Written(holes, tail, number), eval) == Ok(Interleaved(holes, values, tail))
    ensures k < |holes| && eval(Print(holes[k].e, number)).Err?
              && (forall i :: 0 <= i < k ==> eval(Print(holes[i].e, number)).Ok?)
            ==> Interpolated(Written(holes, tail, number), eval) == Err(eval(Print(holes[k].e, number)).error)
  {
    InterpolationFillsTheHoles(holes, tail, eval, number);
    if AllShow(holes, values, eval, number) {
      FilledWithValues(holes, values, tail, eval, number);
    }
    if k < |holes| && eval(Print(holes[k].e, number)).Err?
       && (forall i :: 0 <= i < k ==> eval(Print(holes[i].e, number)).Ok?) {
      FilledFails(holes, k, tail, eval, number);
    }
  }
}
