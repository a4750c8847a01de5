/**
 Printed expressions evaluated from their text (crates/expressions/src: display.rs, lexer.rs,
 parser, validation.rs, evaluator.rs, template.rs taken together).
 */
module Expressions {
  import opened Syntax
  import opened Values
  import opened Printer
  import opened Lexer
  import opened Reparse
  import opened Evaluator
  import Template

  // ------------------------------------------------- an index by name is a property access

  predicate SameArgs(a: seq<Expr>, b: seq<Expr>, path: Path, host: Host) {
    |a| == |b| && forall k :: 0 <= k < |a| ==> Eval(a[k], path + [k], host) == Eval(b[k], path + [k], host)
  }

  lemma {:induction false} SameEvalArgs(name: string, a: seq<Expr>, b: seq<Expr>, path: Path, host: Host)
    requires SameArgs(a, b, path, host)
    ensures EvalArgs(name, a, path, host) == EvalArgs(name, b, path, host)
    decreases |a|
  {
    if a != [] {
      SameEvalArgs(name, a[..|a| - 1], b[..|a| - 1], path, host);
    }
  }

  lemma {:induction false} SameEvalEach(a: seq<Expr>, b: seq<Expr>, path: Path, host: Host)
    requires SameArgs(a, b, path, host)
    ensures EvalEach(a, path, host) == EvalEach(b, path, host)
    decreases |a|
  {
    if a != [] {
      SameEvalEach(a[..|a| - 1], b[..|a| - 1], path, host);
    }
  }

  lemma {:induction false} SameEvalCase(a: seq<Expr>, b: seq<Expr>, k: nat, path: Path, host: Host)
    requires SameArgs(a, b, path, host) && k < |a| && (|a| - k) % 2 == 1
    ensures EvalCase(a, k, path, host) == EvalCase(b, k, path, host)
    decreases |a| - k
  {
    if k + 1 < |a| {
      SameEvalCase(a, b, k + 2, path, host);
    }
  }

  lemma SameCall(name: string, a: seq<Expr>, b: seq<Expr>, path: Path, host: Host)
    requires SameArgs(a, b, path, host)
    ensures Eval(FunctionCall(name, a), path, host) == Eval(FunctionCall(name, b), path, host)
  {
    SameEvalArgs(name, a, b, path, host);
    SameEvalEach(a, b, path, host);
    if |a| % 2 == 1 {
      SameEvalCase(a, b, 0, path, host);
    }
  }

  /** Writing a legal name as an index or as a property makes no difference to the value. */
  lemma {:induction false} NormalizedEval(e: Expr, path: Path, host: Host)
    ensures Eval(Normalized(e), path, host) == Eval(e, path, host)
    decreases e, 1
  {
    match e
    case Literal(_) =>
    case Context(_) =>
    case PropertyAccess(base, property) => NormalizedEval(base, path + [0], host);
    case IndexAccess(base, index) =>
      NormalizedEval(base, path + [0], host);
      NormalizedEval(index, path + [1], host);
    case WildcardAccess(base) => NormalizedEval(base, path + [0], host);
    case FunctionCall(name, args) =>
      NormalizedArgsEval(args, args, path, host);
      SameCall(name, NormalizedAll(args), args, path, host);
    case Not(operand) => NormalizedEval(operand, path + [0], host);
    case BinaryOp(_, left, right) =>
      NormalizedEval(left, path + [0], host);
      NormalizedEval(right, path + [1], host);
  }

  lemma {:induction false} NormalizedAt(args: seq<Expr>, k: nat)
    requires k < |args|
    ensures NormalizedAll(args)[k] == Normalized(args[k])
    decreases k
  {
    if k > 0 {
      NormalizedAt(args[1..], k - 1);
    }
  }

  lemma {:induction false} NormalizedArgsEval(args: seq<Expr>, rest: seq<Expr>, path: Path, host: Host)
    requires |rest| <= |args| && rest == args[|args| - |rest|..]
    ensures forall k :: |args| - |rest| <= k < |args| ==>
              Eval(NormalizedAll(args)[k], path + [k], host) == Eval(args[k], path + [k], host)
    decreases rest, 0
  {
    if rest != [] {
      var k := |args| - |rest|;
      NormalizedEval(rest[0], path + [k], host);
      NormalizedAt(args, k);
      NormalizedArgsEval(args, rest[1..], path, host);
    }
  }

  lemma {:induction false} NormalizedValidates(e: Expr, host: Host)
    ensures Validate(Normalized(e), host) == Validate(e, host)
    decreases e
  {
    match e
    case Literal(_) =>
    case Context(_) =>
    case PropertyAccess(base, _) => NormalizedValidates(base, host);
    case IndexAccess(base, index) =>
      NormalizedValidates(base, host);
      NormalizedValidates(index, host);
      if PrintsAsProperty(index) && Validate(base, host).Ok? {
        assert Validate(base, host).value == ();
      }
    case WildcardAccess(base) => NormalizedValidates(base, host);
    case FunctionCall(_, args) => NormalizedAllValidate(args, host);
    case Not(operand) => NormalizedValidates(operand, host);
    case BinaryOp(_, left, right) =>
      NormalizedValidates(left, host);
      NormalizedValidates(right, host);
  }

  lemma {:induction false} NormalizedAllValidate(args: seq<Expr>, host: Host)
    ensures ValidateAll(NormalizedAll(args), host) == ValidateAll(args, host)
    decreases args
  {
    if args != [] {
      NormalizedValidates(args[0], host);
      NormalizedAllValidate(args[1..], host);
    }
  }

  // ------------------------------------------------------------------ text to value

  /** `evaluate`: lex, parse, validate, evaluate. */
  function EvaluateText(input: string, parse: NumberParser, host: Host): Result<Value> {
    match Parse(input, parse)
    case Err(f) => Err(f)
    case Ok(e) => Evaluate(e, host)
  }

  /** Evaluating the printed text is evaluating the tree. */
  lemma PrintedTextEvaluates(e: Expr, parse: NumberParser, host: Host)
    requires Printable(e) && AccessesAttach(e)
    ensures EvaluateText(Print(e, host.formatNumber), parse, host) == Evaluate(e, host)
  {
    PrintParseRoundTripIff(e, parse, host.formatNumber);
    NormalizedValidates(e, host);
    NormalizedEval(e, [], host);
  }

  // ------------------------------------------------------------------ templates

  function Shown(input: string, parse: NumberParser, host: Host): Result<string> {
    TextOf(EvaluateText(input, parse, host), host)
  }

  /** Each hole replaced by its tree's value. */
  function FilledByTrees(holes: seq<Template.Hole>, tail: string, host: Host): Result<string> {
    if holes == [] then Ok(tail)
    else Template.FillIn(holes[0].text, TextOf(Evaluate(holes[0].e, host), host), FilledByTrees(holes[1..], tail, host))
  }

  lemma {:induction false} FilledIsByTrees(holes: seq<Template.Hole>, tail: string, parse: NumberParser, host: Host)
    requires forall i :: 0 <= i < |holes| ==> Printable(holes[i].e) && AccessesAttach(holes[i].e)
    ensures Template.Filled(holes, tail, text => Shown(text, parse, host), host.formatNumber)
         == FilledByTrees(holes, tail, host)
    decreases |holes|
  {
    if holes != [] {
      PrintedTextEvaluates(holes[0].e, parse, host);
      FilledIsByTrees(holes[1..], tail, parse, host);
    }
  }

  /** Interpolating a template written from trees gives its text with the trees' values in the holes. */
  lemma InterpolationEvaluatesTheTrees(holes: seq<Template.Hole>, tail: string, parse: NumberParser, host: Host)
    requires Template.WellFormed(holes) && Template.OpensNothing(tail)
    requires forall i :: 0 <= i < |holes| ==> AccessesAttach(holes[i].e)
    ensures Template.Interpolated(Template.Written(holes, tail, host.formatNumber), text => Shown(text, parse, host))
         == FilledByTrees(holes, tail, host)
  {
    Template.InterpolationFillsTheHoles(holes, tail, text => Shown(text, parse, host), host.formatNumber);
    FilledIsByTrees(holes, tail, parse, host);
  }
}
