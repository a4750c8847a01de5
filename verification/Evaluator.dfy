/**
 The tree evaluator (crates/expressions/src: evaluator.rs, validation.rs): the lazy evaluation the
 code performs, a strict reference that evaluates every subexpression, and what validation rules
 out. `path` is a node's position in the tree; it identifies the arrays allocated there.
 */
module Evaluator {
  import opened Text
  import opened Syntax
  import opened Values
  import opened Functions

  type Path = seq<nat>

  // ------------------------------------------------------------------------- contexts

  function FindContext(contexts: seq<Entry>, name: string): Option<Value> {
    if contexts == [] then None
    else if Lower(contexts[0].key) == Lower(name) then Some(contexts[0].item)
    else FindContext(contexts[1..], name)
  }

  /** `resolve_context`: null when the name is unknown. */
  function ResolveContext(contexts: seq<Entry>, name: string): Value {
    match FindContext(contexts, name)
    case None => Null
    case Some(v) => v
  }

  // ----------------------------------------------------------------- the lazy evaluator

  function Eval(e: Expr, path: Path, host: Host): Result<Value>
    decreases e, 0
  {
    match e
    case Literal(value) => Ok(value)
    case Context(name) => Ok(ResolveContext(host.contexts, name))
    case PropertyAccess(base, property) => AccessOn(Eval(base, path + [0], host), Some(Str(property)), path, host)
    case IndexAccess(base, index) =>
      (match Eval(base, path + [0], host)
       case Err(f) => Err(f)
       case Ok(v) =>
         if IsPrimitive(v) then Ok(Null)
         else match Eval(index, path + [1], host)
           case Err(f) => Err(f)
           case Ok(i) => Ok(Access(v, Some(i), Made(path), host)))
    case WildcardAccess(base) => AccessOn(Eval(base, path + [0], host), None, path, host)
    case FunctionCall(name, args) =>
      if BuiltinOf(name) == Some(Case) then
        if |args| % 2 == 0 then Err(CaseArity) else EvalCase(args, 0, path, host)
      else if BuiltinOf(name) == Some(Format) then
        if args == [] then Err(FormatMissingTemplate) else EvalFormat(EvalEach(args, path, host), host)
      else
        (match EvalArgs(name, args, path, host)
         case Err(f) => Err(f)
         case Ok(values) => CallFunction(name, values, path, host))
    case Not(operand) => Negate(Eval(operand, path + [0], host))
    case BinaryOp(op, left, right) =>
      match Eval(left, path + [0], host)
      case Err(f) => Err(f)
      case Ok(l) =>
        if (op == And && !IsTruthy(l)) || (op == Or && IsTruthy(l)) then Ok(l)
        else Combine(op, l, Eval(right, path + [1], host), host)
  }

  function AccessOn(r: Result<Value>, index: Option<Value>, path: Path, host: Host): Result<Value> {
    match r
    case Err(f) => Err(f)
    case Ok(v) => Ok(Access(v, index, Made(path), host))
  }

  function Negate(r: Result<Value>): Result<Value> {
    match r
    case Err(f) => Err(f)
    case Ok(v) => Ok(Bool(!IsTruthy(v)))
  }

  /** The right operand's value for `&&` and `||`, a comparison otherwise. */
  function Combine(op: BinaryOperator, l: Value, right: Result<Value>, host: Host): Result<Value> {
    match right
    case Err(f) => Err(f)
    case Ok(r) => if op == And || op == Or then Ok(r) else Ok(Bool(Compare(op, l, r, host)))
  }

  /** The arguments of a call in order, an unused second one left as null. */
  function EvalArgs(name: string, args: seq<Expr>, path: Path, host: Host): (r: Result<seq<Value>>)
    ensures r.Ok? ==> |r.value| == |args|
    decreases args, 0
  {
    if args == [] then Ok([])
    else
      var n := |args| - 1;
      match EvalArgs(name, args[..n], path, host)
      case Err(f) => Err(f)
      case Ok(done) =>
        if n == 1 && UnusedSecond(name, done[0]) then Ok(done + [Null])
        else match Eval(args[n], path + [n], host)
          case Err(f) => Err(f)
          case Ok(v) => Ok(done + [v])
  }

  /** `eval_case` from argument `k` on. */
  function EvalCase(args: seq<Expr>, k: nat, path: Path, host: Host): Result<Value>
    requires k < |args| && (|args| - k) % 2 == 1
    decreases args, |args| - k
  {
    if k + 1 < |args| then
      match Eval(args[k], path + [k], host)
      case Err(f) => Err(f)
      case Ok(v) =>
        if !v.Bool? then Err(CaseNotBoolean)
        else if v.b then Eval(args[k + 1], path + [k + 1], host)
        else EvalCase(args, k + 2, path, host)
    else Eval(args[k], path + [k], host)
  }

  /** What evaluating each argument gives; which of these are asked for is decided by the reader. */
  function EvalEach(args: seq<Expr>, path: Path, host: Host): (rs: seq<Result<Value>>)
    ensures |rs| == |args|
    decreases args, 0
  {
    if args == [] then []
    else EvalEach(args[..|args| - 1], path, host) + [Eval(args[|args| - 1], path + [|args| - 1], host)]
  }

  function TextOf(r: Result<Value>, host: Host): Result<string> {
    match r
    case Err(f) => Err(f)
    case Ok(v) => Ok(ToText(v, host))
  }

  function TextsOf(rs: seq<Result<Value>>, host: Host): seq<Result<string>> {
    seq(|rs|, i requires 0 <= i < |rs| => TextOf(rs[i], host))
  }

  /** `eval_format`: the template first, then only the arguments it refers to. */
  function EvalFormat(rs: seq<Result<Value>>, host: Host): Result<Value>
    requires rs != []
  {
    match rs[0]
    case Err(f) => Err(f)
    case Ok(template) =>
      match FormatWith(ToText(template, host), TextsOf(rs[1..], host))
      case Err(f) => Err(f)
      case Ok(text) => Ok(Str(text))
  }

  // ------------------------------------------------------------------ the loops it runs

  /** The argument loop of `eval_expr`. */
  method CollectArgs(name: string, args: seq<Expr>, path: Path, host: Host) returns (r: Result<seq<Value>>)
    ensures r == EvalArgs(name, args, path, host)
  {
    r := Ok([]);
    var i := 0;
    while i < |args| && r.Ok?
      invariant 0 <= i <= |args|
      invariant r == EvalArgs(name, args[..i], path, host)
    {
      assert args[..i + 1][..i] == args[..i];
      if i == 1 && UnusedSecond(name, r.value[0]) {
        r := Ok(r.value + [Null]);
      } else {
        var v := Eval(args[i], path + [i], host);
        r := if v.Err? then Err(v.error) else Ok(r.value + [v.value]);
      }
      i := i + 1;
    }
    if r.Ok? {
      assert args[..i] == args;
    } else {
      EvalArgsFails(name, args, i, path, host);
    }
  }

  lemma {:induction false} EvalArgsFails(name: string, args: seq<Expr>, n: nat, path: Path, host: Host)
    requires n <= |args| && EvalArgs(name, args[..n], path, host).Err?
    ensures EvalArgs(name, args, path, host) == EvalArgs(name, args[..n], path, host)
    decreases |args|
  {
    if n == |args| {
      assert args[..n] == args;
    } else {
      var front := args[..|args| - 1];
      assert front[..n] == args[..n];
      EvalArgsFails(name, front, n, path, host);
    }
  }

  /** The pair loop of `eval_case`. */
  method RunCase(args: seq<Expr>, path: Path, host: Host) returns (r: Result<Value>)
    ensures r == if |args| % 2 == 0 then Err(CaseArity) else EvalCase(args, 0, path, host)
  {
    if |args| % 2 == 0 {
      return Err(CaseArity);
    }
    var k := 0;
    while k + 1 < |args|
      invariant 0 <= k < |args| && k % 2 == 0
      invariant EvalCase(args, 0, path, host) == EvalCase(args, k, path, host)
    {
      var v := Eval(args[k], path + [k], host);
      if v.Err? {
        return Err(v.error);
      } else if !v.value.Bool? {
        return Err(CaseNotBoolean);
      } else if v.value.b {
        r := Eval(args[k + 1], path + [k + 1], host);
        return;
      }
      k := k + 2;
    }
    r := Eval(args[k], path + [k], host);
  }

  // -------------------------------------------------------------- the strict reference

  /** Every subexpression is evaluated before its parent looks at any of them. */
  function Strict(e: Expr, path: Path, host: Host): Result<Value>
    decreases e, 0
  {
    match e
    case Literal(value) => Ok(value)
    case Context(name) => Ok(ResolveContext(host.contexts, name))
    case PropertyAccess(base, property) => AccessOn(Strict(base, path + [0], host), Some(Str(property)), path, host)
    case IndexAccess(base, index) =>
      (match Strict(base, path + [0], host)
       case Err(f) => Err(f)
       case Ok(v) =>
         match Strict(index, path + [1], host)
         case Err(f) => Err(f)
         case Ok(i) => Ok(Access(v, Some(i), Made(path), host)))
    case WildcardAccess(base) => AccessOn(Strict(base, path + [0], host), None, path, host)
    case FunctionCall(name, args) =>
      (match StrictAll(args, path, host)
       case Err(f) => Err(f)
       case Ok(values) => CallFunction(name, values, path, host))
    case Not(operand) => Negate(Strict(operand, path + [0], host))
    case BinaryOp(op, left, right) =>
      match Strict(left, path + [0], host)
      case Err(f) => Err(f)
      case Ok(l) =>
        match Strict(right, path + [1], host)
        case Err(f) => Err(f)
        case Ok(r) =>
          if op == And then Ok(if IsTruthy(l) then r else l)
          else if op == Or then Ok(if IsTruthy(l) then l else r)
          else Ok(Bool(Compare(op, l, r, host)))
  }

  function StrictAll(args: seq<Expr>, path: Path, host: Host): (r: Result<seq<Value>>)
    ensures r.Ok? ==> |r.value| == |args|
    decreases args, 0
  {
    if args == [] then Ok([])
    else
      var n := |args| - 1;
      match StrictAll(args[..n], path, host)
      case Err(f) => Err(f)
      case Ok(done) =>
        match Strict(args[n], path + [n], host)
        case Err(f) => Err(f)
        case Ok(v) => Ok(done + [v])
  }

  // -------------------------------------------------------------- lazy refines strict

  /** Each strict argument value is what lazy evaluation of that argument gives. */
  lemma {:induction false} ArgsRefine(args: seq<Expr>, path: Path, host: Host)
    requires StrictAll(args, path, host).Ok?
    ensures forall k :: 0 <= k < |args| ==> Eval(args[k], path + [k], host) == Ok(StrictAll(args, path, host).value[k])
    decreases args, 0
  {
    if args != [] {
      var n := |args| - 1;
      ArgsRefine(args[..n], path, host);
      LazyRefinesStrict(args[n], path + [n], host);
      assert forall k :: 0 <= k < n ==> args[..n][k] == args[k];
    }
  }

  /** The values a call sees: an unused second one is left as null. */
  function SeenArgs(name: string, values: seq<Value>): seq<Value> {
    if |values| >= 2 && UnusedSecond(name, values[0]) then values[1 := Null] else values
  }

  lemma SeenStep(name: string, values: seq<Value>)
    requires values != []
    ensures var n := |values| - 1;
            var done := SeenArgs(name, values[..n]);
            && |done| == n && (n > 0 ==> done[0] == values[0])
            && SeenArgs(name, values) == done + [if n == 1 && UnusedSecond(name, values[0]) then Null else values[n]]
  {
    var n := |values| - 1;
    assert values == values[..n] + [values[n]];
    if n >= 1 && UnusedSecond(name, values[0]) {
      assert values[1 := Null] == (if n == 1 then values[..n] + [Null] else values[..n][1 := Null] + [values[n]]);
    }
  }

  lemma EvalArgsStep(name: string, args: seq<Expr>, done: seq<Value>, v: Value, path: Path, host: Host)
    requires args != [] && |done| == |args| - 1 && EvalArgs(name, args[..|args| - 1], path, host) == Ok(done)
    requires Eval(args[|args| - 1], path + [|args| - 1], host) == Ok(v)
    ensures EvalArgs(name, args, path, host)
         == Ok(done + [if |args| == 2 && UnusedSecond(name, done[0]) then Null else v])
  {
  }

  /** The evaluated arguments are the strict ones, but for an unused second one. */
  lemma {:induction false} EvalArgsRefine(name: string, args: seq<Expr>, values: seq<Value>, path: Path, host: Host)
    requires |values| == |args|
    requires forall k :: 0 <= k < |args| ==> Eval(args[k], path + [k], host) == Ok(values[k])
    ensures EvalArgs(name, args, path, host) == Ok(SeenArgs(name, values))
    decreases |args|
  {
    if args != [] {
      var n := |args| - 1;
      forall k | 0 <= k < n ensures Eval(args[..n][k], path + [k], host) == Ok(values[..n][k]) {
        assert args[..n][k] == args[k];
      }
      EvalArgsRefine(name, args[..n], values[..n], path, host);
      SeenStep(name, values);
      EvalArgsStep(name, args, SeenArgs(name, values[..n]), values[n], path, host);
    }
  }

  lemma {:induction false} EvalCaseRefines(args: seq<Expr>, values: seq<Value>, k: nat, path: Path, host: Host)
    requires |values| == |args| && k < |args| && (|args| - k) % 2 == 1
    requires forall i :: 0 <= i < |args| ==> Eval(args[i], path + [i], host) == Ok(values[i])
    requires CaseOf(values, k).Ok?
    ensures EvalCase(args, k, path, host) == CaseOf(values, k)
    decreases |args| - k
  {
    if k + 1 < |args| && values[k] == Bool(false) {
      EvalCaseRefines(args, values, k + 2, path, host);
    }
  }

  lemma {:induction false} EvalEachIs(args: seq<Expr>, values: seq<Value>, path: Path, host: Host)
    requires |values| == |args|
    requires forall k :: 0 <= k < |args| ==> Eval(args[k], path + [k], host) == Ok(values[k])
    ensures forall k :: 0 <= k < |args| ==> EvalEach(args, path, host)[k] == Ok(values[k])
    decreases |args|
  {
    if args != [] {
      var n := |args| - 1;
      forall k | 0 <= k < n ensures Eval(args[..n][k], path + [k], host) == Ok(values[..n][k]) {
        assert args[..n][k] == args[k];
      }
      EvalEachIs(args[..n], values[..n], path, host);
    }
  }

  lemma EvalFormatRefines(args: seq<Expr>, values: seq<Value>, path: Path, host: Host)
    requires |values| == |args| && args != []
    requires forall k :: 0 <= k < |args| ==> Eval(args[k], path + [k], host) == Ok(values[k])
    ensures EvalFormat(EvalEach(args, path, host), host) == FormatOf(values, host)
  {
    var rs := EvalEach(args, path, host);
    EvalEachIs(args, values, path, host);
    forall k | 0 <= k < |args| - 1 ensures TextsOf(rs[1..], host)[k] == OkTexts(values[1..], host)[k] {
      assert rs[1..][k] == rs[k + 1];
    }
    assert TextsOf(rs[1..], host) == OkTexts(values[1..], host);
  }

  lemma {:induction false} CallRefines(name: string, args: seq<Expr>, path: Path, host: Host)
    requires Strict(FunctionCall(name, args), path, host).Ok?
    ensures Eval(FunctionCall(name, args), path, host) == Strict(FunctionCall(name, args), path, host)
    decreases args, 1
  {
    var values := StrictAll(args, path, host).value;
    ArgsRefine(args, path, host);
    if BuiltinOf(name) == Some(Case) {
      EvalCaseRefines(args, values, 0, path, host);
    } else if BuiltinOf(name) == Some(Format) {
      EvalFormatRefines(args, values, path, host);
    } else {
      EvalArgsRefine(name, args, values, path, host);
      if |args| >= 2 && UnusedSecond(name, values[0]) {
        UnusedSecondIsUnused(name, values, Null, path, host);
      }
    }
  }

  lemma PrimitiveHasNoMembers(v: Value, index: Value, id: Ref, host: Host)
    requires IsPrimitive(v)
    ensures Access(v, Some(index), id, host) == Null
  {
  }

  /** Whenever evaluating every subexpression succeeds, the lazy evaluator returns the same value. */
  lemma {:induction false} LazyRefinesStrict(e: Expr, path: Path, host: Host)
    requires Strict(e, path, host).Ok?
    ensures Eval(e, path, host) == Strict(e, path, host)
    decreases e, 1
  {
    match e
    case Literal(_) =>
    case Context(_) =>
    case PropertyAccess(base, _) => LazyRefinesStrict(base, path + [0], host);
    case IndexAccess(base, index) =>
      LazyRefinesStrict(base, path + [0], host);
      LazyRefinesStrict(index, path + [1], host);
      if IsPrimitive(Strict(base, path + [0], host).value) {
        PrimitiveHasNoMembers(Strict(base, path + [0], host).value, Strict(index, path + [1], host).value, Made(path),
                              host);
      }
    case WildcardAccess(base) => LazyRefinesStrict(base, path + [0], host);
    case FunctionCall(name, args) => CallRefines(name, args, path, host);
    case Not(operand) => LazyRefinesStrict(operand, path + [0], host);
    case BinaryOp(_, left, right) =>
      LazyRefinesStrict(left, path + [0], host);
      LazyRefinesStrict(right, path + [1], host);
  }

  // ---------------------------------------------------------------------- validation

  function Then(r: Result<()>, next: Result<()>): Result<()> {
    if r.Err? then r else next
  }

  predicate KnownContext(contexts: seq<Entry>, name: string) {
    exists k :: 0 <= k < |contexts| && Lower(contexts[k].key) == Lower(name)
  }

  /** `validate`. */
  function Validate(e: Expr, host: Host): Result<()>
    decreases e, 0
  {
    match e
    case Literal(_) => Ok(())
    case Context(name) => if KnownContext(host.contexts, name) then Ok(()) else Err(UnknownName(name))
    case PropertyAccess(base, _) => Validate(base, host)
    case IndexAccess(base, index) => Then(Validate(base, host), Validate(index, host))
    case WildcardAccess(base) => Validate(base, host)
    case FunctionCall(name, args) => Then(ValidateArity(name, |args|), ValidateAll(args, host))
    case Not(operand) => Validate(operand, host)
    case BinaryOp(_, left, right) => Then(Validate(left, host), Validate(right, host))
  }

  function ValidateAll(args: seq<Expr>, host: Host): Result<()>
    decreases args, 0
  {
    if args == [] then Ok(()) else Then(Validate(args[0], host), ValidateAll(args[1..], host))
  }

  /** The node and every subexpression, taken or not. */
  function Subtrees(e: Expr): set<Expr>
    decreases e, 0
  {
    {e} + match e
          case Literal(_) => {}
          case Context(_) => {}
          case PropertyAccess(base, _) => Subtrees(base)
          case IndexAccess(base, index) => Subtrees(base) + Subtrees(index)
          case WildcardAccess(base) => Subtrees(base)
          case FunctionCall(_, args) => AllSubtrees(args)
          case Not(operand) => Subtrees(operand)
          case BinaryOp(_, left, right) => Subtrees(left) + Subtrees(right)
  }

  function AllSubtrees(args: seq<Expr>): set<Expr>
    decreases args, 0
  {
    if args == [] then {} else Subtrees(args[0]) + AllSubtrees(args[1..])
  }

  /** A node that evaluation cannot trip over: its name is known, its call well-formed. */
  predicate NodeFits(e: Expr, host: Host) {
    match e
    case Context(name) => FindContext(host.contexts, name).Some?
    case FunctionCall(name, args) =>
      BuiltinOf(name).Some? && ArityFits(BuiltinOf(name).value, |args|)
        && (BuiltinOf(name) == Some(Case) ==> |args| % 2 == 1)
    case _ => true
  }

  lemma {:induction false} KnownIsFound(contexts: seq<Entry>, name: string)
    ensures KnownContext(contexts, name) <==> FindContext(contexts, name).Some?
  {
    if contexts != [] {
      KnownIsFound(contexts[1..], name);
      assert forall k :: 0 <= k < |contexts| - 1 ==> contexts[1..][k] == contexts[k + 1];
      if Lower(contexts[0].key) != Lower(name) && KnownContext(contexts, name) {
        var k :| 0 <= k < |contexts| && Lower(contexts[k].key) == Lower(name);
        assert contexts[1..][k - 1] == contexts[k];
      }
    }
  }

  /** Validation accepts exactly the trees whose every node fits, also in branches never taken. */
  lemma {:induction false} ValidatedIff(e: Expr, host: Host)
    ensures Validate(e, host).Ok? <==> forall n :: n in Subtrees(e) ==> NodeFits(n, host)
    decreases e, 0
  {
    assert e in Subtrees(e);
    match e
    case Literal(_) =>
    case Context(name) =>
      ContextFits(name, host);
      assert Subtrees(e) == {e};
    case PropertyAccess(base, _) => ValidatedIff(base, host);
    case IndexAccess(base, index) =>
      ValidatedIff(base, host);
      ValidatedIff(index, host);
    case WildcardAccess(base) => ValidatedIff(base, host);
    case FunctionCall(name, args) =>
      AllValidatedIff(args, host);
      ArityIff(name, args, host);
      assert Subtrees(e) == {e} + AllSubtrees(args);
    case Not(operand) => ValidatedIff(operand, host);
    case BinaryOp(_, left, right) =>
      ValidatedIff(left, host);
      ValidatedIff(right, host);
  }

  lemma ContextFits(name: string, host: Host)
    ensures Validate(Context(name), host).Ok? <==> NodeFits(Context(name), host)
  {
    KnownIsFound(host.contexts, name);
  }

  lemma ArityIff(name: string, args: seq<Expr>, host: Host)
    ensures ValidateArity(name, |args|).Ok? <==> NodeFits(FunctionCall(name, args), host)
  {
  }

  lemma {:induction false} AllValidatedIff(args: seq<Expr>, host: Host)
    ensures ValidateAll(args, host).Ok? <==> forall n :: n in AllSubtrees(args) ==> NodeFits(n, host)
    decreases args, 0
  {
    if args != [] {
      ValidatedIff(args[0], host);
      AllValidatedIff(args[1..], host);
    }
  }

  /** After validation every context reference, taken or not, finds its entry: evaluating it never falls
      back to null. */
  lemma ValidatedContextsResolve(e: Expr, name: string, path: Path, host: Host)
    requires Validate(e, host).Ok? && Context(name) in Subtrees(e)
    ensures FindContext(host.contexts, name).Some?
    ensures Eval(Context(name), path, host) == Ok(FindContext(host.contexts, name).value)
  {
    ValidatedIff(e, host);
    assert NodeFits(Context(name), host);
  }

  /** The failures validation exists to rule out. */
  predicate ShapeError(f: Failure) {
    f.UnknownName? || f.UnknownFunction? || f.WrongArity? || f.CaseArity? || f.FormatMissingTemplate?
  }

  predicate NoShapeError<T>(r: Result<T>) {
    r.Err? ==> !ShapeError(r.error)
  }

  lemma {:induction false} RenderedErrors(segments: seq<Segment>, args: seq<Result<string>>)
    requires InRange(segments, |args|) && forall i :: 0 <= i < |args| ==> NoShapeError(args[i])
    ensures NoShapeError(Rendered(segments, args))
    decreases |segments|
  {
    if segments != [] {
      RenderedErrors(segments[..|segments| - 1], args);
    }
  }

  lemma FormatErrors(rs: seq<Result<Value>>, host: Host)
    requires rs != [] && forall i :: 0 <= i < |rs| ==> NoShapeError(rs[i])
    ensures NoShapeError(EvalFormat(rs, host))
  {
    if rs[0].Ok? {
      var template, texts := ToText(rs[0].value, host), TextsOf(rs[1..], host);
      forall i | 0 <= i < |texts| ensures NoShapeError(texts[i]) {
        assert rs[1..][i] == rs[i + 1];
      }
      var segments := Segments(template, [], |texts|);
      if segments.Ok? {
        RenderedErrors(segments.value, texts);
      }
    }
  }

  lemma {:induction false} EvalArgsErrors(name: string, args: seq<Expr>, path: Path, host: Host)
    requires forall k :: 0 <= k < |args| ==> NoShapeError(Eval(args[k], path + [k], host))
    ensures NoShapeError(EvalArgs(name, args, path, host))
    decreases |args|
  {
    if args != [] {
      var n := |args| - 1;
      forall k | 0 <= k < n ensures NoShapeError(Eval(args[..n][k], path + [k], host)) {
        assert args[..n][k] == args[k];
      }
      EvalArgsErrors(name, args[..n], path, host);
    }
  }

  lemma {:induction false} EvalEachErrors(args: seq<Expr>, path: Path, host: Host)
    requires forall k :: 0 <= k < |args| ==> NoShapeError(Eval(args[k], path + [k], host))
    ensures forall k :: 0 <= k < |args| ==> NoShapeError(EvalEach(args, path, host)[k])
    decreases |args|
  {
    if args != [] {
      var n := |args| - 1;
      forall k | 0 <= k < n ensures NoShapeError(Eval(args[..n][k], path + [k], host)) {
        assert args[..n][k] == args[k];
      }
      EvalEachErrors(args[..n], path, host);
    }
  }

  lemma {:induction false} EvalCaseErrors(args: seq<Expr>, k: nat, path: Path, host: Host)
    requires k < |args| && (|args| - k) % 2 == 1
    requires forall i :: 0 <= i < |args| ==> NoShapeError(Eval(args[i], path + [i], host))
    ensures NoShapeError(EvalCase(args, k, path, host))
    decreases |args| - k
  {
    if k + 1 < |args| {
      if Eval(args[k], path + [k], host) == Ok(Bool(false)) {
        EvalCaseErrors(args, k + 2, path, host);
      }
    }
  }

  lemma CallErrors(name: string, args: seq<Expr>, path: Path, host: Host)
    requires NodeFits(FunctionCall(name, args), host)
    requires forall k :: 0 <= k < |args| ==> NoShapeError(Eval(args[k], path + [k], host))
    ensures NoShapeError(Eval(FunctionCall(name, args), path, host))
  {
    ArityIff(name, args, host);
    if BuiltinOf(name) == Some(Case) {
      EvalCaseErrors(args, 0, path, host);
    } else if BuiltinOf(name) == Some(Format) {
      EvalEachErrors(args, path, host);
      FormatErrors(EvalEach(args, path, host), host);
    } else {
      EvalArgsErrors(name, args, path, host);
    }
  }

  /** After validation, evaluation reports no unknown name or function and no wrong argument count. */
  lemma {:induction false} ValidatedNeverTrips(e: Expr, path: Path, host: Host)
    requires Validate(e, host).Ok?
    ensures NoShapeError(Eval(e, path, host))
    decreases e, 1
  {
    match e
    case Literal(_) =>
    case Context(_) =>
    case PropertyAccess(base, _) => ValidatedNeverTrips(base, path + [0], host);
    case IndexAccess(base, index) =>
      ValidatedNeverTrips(base, path + [0], host);
      ValidatedNeverTrips(index, path + [1], host);
    case WildcardAccess(base) => ValidatedNeverTrips(base, path + [0], host);
    case FunctionCall(name, args) =>
      ValidatedArgsNeverTrip(args, args, path, host);
      ArityIff(name, args, host);
      CallErrors(name, args, path, host);
    case Not(operand) => ValidatedNeverTrips(operand, path + [0], host);
    case BinaryOp(_, left, right) =>
      ValidatedNeverTrips(left, path + [0], host);
      ValidatedNeverTrips(right, path + [1], host);
  }

  lemma {:induction false} ValidatedArgsNeverTrip(args: seq<Expr>, rest: seq<Expr>, path: Path, host: Host)
    requires |rest| <= |args| && rest == args[|args| - |rest|..] && ValidateAll(rest, host).Ok?
    ensures forall k :: |args| - |rest| <= k < |args| ==> NoShapeError(Eval(args[k], path + [k], host))
    decreases rest, 0
  {
    if rest != [] {
      ValidatedNeverTrips(rest[0], path + [|args| - |rest|], host);
      ValidatedArgsNeverTrip(args, rest[1..], path, host);
    }
  }

  // -------------------------------------------------------------------------- the whole

  /** `evaluate` from the parsed tree on. */
  function Evaluate(e: Expr, host: Host): Result<Value> {
    match Validate(e, host)
    case Err(f) => Err(f)
    case Ok(_) => Eval(e, [], host)
  }
}
