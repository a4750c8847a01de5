/**
 What calls of the built-in functions evaluate to (crates/expressions/src: functions/builtins.rs,
 functions/format.rs, validation.rs), stated on the arguments' values.
 */
module CallMeaning {
  import opened Text
  import opened Syntax
  import opened Values
  import opened Functions
  import opened Evaluator
  import opened Meaning

  // ------------------------------------------------------------------- calls on values

  predicate AllEvaluate(args: seq<Expr>, values: seq<Value>, path: Path, host: Host) {
    |values| == |args| && forall k :: 0 <= k < |args| ==> Eval(args[k], path + [k], host) == Ok(values[k])
  }

  /** A call other than `case` and `format` whose arguments all have values. */
  lemma CallOnValues(name: string, args: seq<Expr>, values: seq<Value>, path: Path, host: Host)
    requires AllEvaluate(args, values, path, host) && Lower(name) != "case" && Lower(name) != "format"
    ensures Eval(FunctionCall(name, args), path, host) == CallFunction(name, values, path, host)
  {
    EvalArgsRefine(name, args, values, path, host);
    if |args| >= 2 && UnusedSecond(name, values[0]) {
      UnusedSecondIsUnused(name, values, Null, path, host);
    }
  }

  /** The first argument that fails is reported, unless it is a second one that the call does not use. */
  lemma ArgumentFailure(name: string, args: seq<Expr>, values: seq<Value>, k: nat, f: Failure, path: Path, host: Host)
    requires k < |args| && AllEvaluate(args[..k], values, path, host) && Eval(args[k], path + [k], host) == Err(f)
    requires Lower(name) != "case" && Lower(name) != "format" && !(k == 1 && UnusedSecond(name, values[0]))
    ensures Eval(FunctionCall(name, args), path, host) == Err(f)
  {
    EvalArgsRefine(name, args[..k], values, path, host);
    assert args[..k + 1][..k] == args[..k] && |SeenArgs(name, values)| == k;
    assert k > 0 ==> SeenArgs(name, values)[0] == values[0];
    assert EvalArgs(name, args[..k + 1], path, host) == Err(f);
    EvalArgsFails(name, args, k + 1, path, host);
  }

  /** When the first argument settles the call, the second is not evaluated: it might as well be null. */
  lemma SecondIsNotEvaluated(name: string, x: Expr, y: Expr, v: Value, path: Path, host: Host)
    requires Eval(x, path + [0], host) == Ok(v)
    requires || (Lower(name) == "contains" && (v.Object? || (v.Array? && v.items == [])))
             || (Lower(name) == "startswith" && (v.Object? || v.Array?))
             || (Lower(name) == "endswith" && (v.Object? || v.Array?))
             || (Lower(name) == "join" && !(v.Array? && |v.items| >= 2))
    ensures Eval(FunctionCall(name, [x, y]), path, host) == Eval(FunctionCall(name, [x, Literal(Null)]), path, host)
  {
    SecondIsNull(name, x, y, v, path, host);
    SecondIsNull(name, x, Literal(Null), v, path, host);
  }

  lemma SecondIsNull(name: string, x: Expr, y: Expr, v: Value, path: Path, host: Host)
    requires Eval(x, path + [0], host) == Ok(v) && UnusedSecond(name, v)
    ensures EvalArgs(name, [x, y], path, host) == Ok([v, Null])
  {
    EvalArgsRefine(name, [x], [v], path, host);
    var args := [x, y];
    assert |args| - 1 == 1 && args[..1] == [x] && [v] + [Null] == [v, Null];
    assert EvalArgs(name, args[..1], path, host) == Ok([v]);
  }

  ghost predicate Answers(r: Result<Value>, b: bool) {
    r == Ok(Bool(b))
  }

  /** A value's text as upper-cased units. */
  function Units(v: Value, host: Host): seq<nat> {
    host.upper(ToText(v, host))
  }

  ghost predicate StartsWithUnits(s: seq<nat>, p: seq<nat>) {
    exists rest :: s == p + rest
  }

  ghost predicate EndsIn(s: seq<nat>, p: seq<nat>) {
    exists front :: s == front + p
  }

  ghost predicate Holding(s: seq<nat>, p: seq<nat>) {
    exists front, rest :: s == front + (p + rest)
  }

  lemma PrefixIff(s: seq<nat>, p: seq<nat>)
    ensures p <= s <==> StartsWithUnits(s, p)
  {
    if p <= s {
      assert s == p + s[|p|..];
    }
  }

  lemma SuffixIff(s: seq<nat>, p: seq<nat>)
    ensures EndsWithUnits(s, p) <==> EndsIn(s, p)
  {
    if EndsWithUnits(s, p) {
      assert s == s[..|s| - |p|] + p;
    }
  }

  lemma WindowIff(s: seq<nat>, p: seq<nat>)
    ensures Window(s, p) <==> Holding(s, p)
  {
    if i :| 0 <= i <= |s| && p <= s[i..] {
      assert s == s[..i] + (p + s[i..][|p|..]);
    }
    if Holding(s, p) {
      var front, rest :| s == front + (p + rest);
      assert s[|front|..] == p + rest;
    }
  }

  /** `startsWith` and `endsWith`: on primitives only, whatever the case. */
  lemma AffixMeaning(name: string, args: seq<Expr>, a: Value, b: Value, path: Path, host: Host)
    requires AllEvaluate(args, [a, b], path, host)
    ensures Lower(name) == "startswith" ==>
              Answers(Eval(FunctionCall(name, args), path, host),
                      IsPrimitive(a) && IsPrimitive(b) && StartsWithUnits(Units(a, host), Units(b, host)))
    ensures Lower(name) == "endswith" ==>
              Answers(Eval(FunctionCall(name, args), path, host),
                      IsPrimitive(a) && IsPrimitive(b) && EndsIn(Units(a, host), Units(b, host)))
  {
    if Lower(name) == "startswith" || Lower(name) == "endswith" {
      CallOnValues(name, args, [a, b], path, host);
      PrefixIff(Units(a, host), Units(b, host));
      SuffixIff(Units(a, host), Units(b, host));
    }
  }

  /** `contains`: part of a primitive's text, or loosely equal to an item of an array; an object contains nothing. */
  lemma ContainsMeaning(name: string, args: seq<Expr>, a: Value, b: Value, path: Path, host: Host)
    requires AllEvaluate(args, [a, b], path, host) && Lower(name) == "contains"
    ensures Answers(Eval(FunctionCall(name, args), path, host),
                    || (a.Array? && exists k :: 0 <= k < |a.items| && Same(a.items[k], b, host))
                    || (IsPrimitive(a) && IsPrimitive(b) && Holding(Units(a, host), Units(b, host))))
  {
    CallOnValues(name, args, [a, b], path, host);
    WindowIff(Units(a, host), Units(b, host));
    if a.Array? {
      forall k | 0 <= k < |a.items| ensures LooseEq(a.items[k], b, host) <==> Same(a.items[k], b, host) {
        ComparesValues(a.items[k], b, host);
      }
    }
  }

  predicate StatusIs(name: string, status: JobStatus) {
    || (name == "success" && status == Succeeded)
    || (name == "failure" && status == Failed)
    || (name == "cancelled" && status == Cancelled)
    || name == "always"
  }

  lemma StatusCall(name: string, path: Path, host: Host)
    requires Lower(name) in {"success", "failure", "cancelled", "always"}
    ensures Answers(CallFunction(name, [], path, host), StatusIs(Lower(name), host.status))
  {
  }

  /** The status functions. */
  lemma StatusMeaning(name: string, path: Path, host: Host)
    requires Lower(name) in {"success", "failure", "cancelled", "always"}
    ensures Answers(Eval(FunctionCall(name, []), path, host), StatusIs(Lower(name), host.status))
  {
    CallOnValues(name, [], [], path, host);
    StatusCall(name, path, host);
  }

  // ------------------------------------------------------------------------------ join

  lemma {:induction false} JoinSnoc(pieces: seq<string>, last: string, sep: string)
    ensures Join(pieces + [last], sep) == if pieces == [] then last else Join(pieces, sep) + (sep + last)
    decreases |pieces|
  {
    var all := pieces + [last];
    if |pieces| >= 1 {
      assert all[0] == pieces[0] && all[1..] == pieces[1..] + [last];
      JoinSnoc(pieces[1..], last, sep);
      if |pieces| == 1 {
        assert pieces[0] + sep + last == pieces[0] + (sep + last);
      } else {
        assert pieces[0] + sep + (Join(pieces[1..], sep) + (sep + last))
            == (pieces[0] + sep + Join(pieces[1..], sep)) + (sep + last);
      }
    }
  }

  /** The texts of the items with the separator between each two. */
  function Joined(items: seq<Value>, sep: string, host: Host): string {
    if items == [] then []
    else
      var n := |items| - 1;
      (if n == 0 then [] else Joined(items[..n], sep, host) + sep) + ToText(items[n], host)
  }

  lemma {:induction false} JoinedIsJoin(items: seq<Value>, sep: string, host: Host)
    ensures Join(Texts(items, host), sep) == Joined(items, sep, host)
    decreases |items|
  {
    if items == [] {
      assert Texts(items, host) == [];
    } else {
      var n := |items| - 1;
      var front, last := Texts(items[..n], host), ToText(items[n], host);
      assert Texts(items, host) == front + [last];
      JoinSnoc(front, last, sep);
      JoinedIsJoin(items[..n], sep, host);
      assert [] + last == last;
      ConcatAssoc(Joined(items[..n], sep, host), sep, last);
    }
  }

  /** `join`: a comma unless a primitive separator is given; an object joins to nothing, a primitive to its text. */
  lemma JoinMeaning(name: string, args: seq<Expr>, values: seq<Value>, path: Path, host: Host)
    requires AllEvaluate(args, values, path, host) && 1 <= |values| <= 2 && Lower(name) == "join"
    ensures var sep := if |values| == 2 && IsPrimitive(values[1]) then ToText(values[1], host) else ",";
            Eval(FunctionCall(name, args), path, host)
            == Ok(Str(if values[0].Array? then Joined(values[0].items, sep, host)
                      else if values[0].Object? then ""
                      else ToText(values[0], host)))
  {
    CallOnValues(name, args, values, path, host);
    if values[0].Array? {
      JoinedIsJoin(values[0].items, if |values| == 2 && IsPrimitive(values[1]) then ToText(values[1], host) else ",",
                   host);
    }
  }

  // ------------------------------------------------------------------------------ case

  /** The first `n` conditions are false. */
  ghost predicate FalseUpTo(args: seq<Expr>, n: nat, path: Path, host: Host)
    requires 2 * n <= |args|
  {
    forall i :: 0 <= i < n ==> Eval(args[2 * i], path + [2 * i], host) == Ok(Bool(false))
  }

  lemma {:induction false} CaseSkips(args: seq<Expr>, n: nat, path: Path, host: Host)
    requires |args| % 2 == 1 && 2 * n < |args| && FalseUpTo(args, n, path, host)
    ensures EvalCase(args, 0, path, host) == EvalCase(args, 2 * n, path, host)
    decreases n
  {
    if n > 0 {
      CaseSkips(args, n - 1, path, host);
      assert Eval(args[2 * (n - 1)], path + [2 * (n - 1)], host) == Ok(Bool(false));
    }
  }

  /**
   `case`: the result after the first condition that is true, the last argument when all are false; a condition
   that is no boolean, or fails, ends it. What follows is not evaluated.
   */
  lemma CaseMeaning(name: string, args: seq<Expr>, n: nat, path: Path, host: Host)
    requires Lower(name) == "case" && |args| % 2 == 1 && 2 * n < |args| && FalseUpTo(args, n, path, host)
    ensures var r, k := Eval(FunctionCall(name, args), path, host), 2 * n;
            var condition := Eval(args[k], path + [k], host);
            if k + 1 == |args| then r == condition
            else if condition == Ok(Bool(true)) then r == Eval(args[k + 1], path + [k + 1], host)
            else if condition.Err? then r == Err(condition.error)
            else !condition.value.Bool? ==> r == Err(CaseNotBoolean)
  {
    CaseSkips(args, n, path, host);
  }

  // ----------------------------------------------------------------------------- format

  /** The texts and the arguments they call for, in turn. */
  function Filled(places: seq<Placeholder>, tail: string, args: seq<string>): string
    requires forall i :: 0 <= i < |places| ==> places[i].index < |args|
  {
    if places == [] then tail
    else places[0].text + (args[places[0].index] + Filled(places[1..], tail, args))
  }

  function Oks(args: seq<string>): (r: seq<Result<string>>)
    ensures |r| == |args|
  {
    seq(|args|, i requires 0 <= i < |args| => Ok(args[i]))
  }

  /** One more segment: its text, or its argument's. */
  lemma RenderedMore(done: seq<Segment>, text: string, last: Segment, args: seq<string>)
    requires InRange(done, |args|) && Rendered(done, Oks(args)) == Ok(text)
    requires last.Argument? ==> last.index < |args| && !last.badSpecifier
    ensures InRange(done + [last], |args|)
    ensures Rendered(done + [last], Oks(args)) == Ok(text + if last.Text? then last.text else args[last.index])
  {
    assert (done + [last])[..|done|] == done;
  }

  lemma TwoMore(done: seq<Segment>, text: string, p: Placeholder, args: seq<string>)
    requires InRange(done, |args|) && Rendered(done, Oks(args)) == Ok(text) && p.index < |args|
    ensures InRange(done + [Text(p.text), Argument(p.index, false)], |args|)
    ensures Rendered(done + [Text(p.text), Argument(p.index, false)], Oks(args))
         == Ok(text + (p.text + args[p.index]))
  {
    RenderedMore(done, text, Text(p.text), args);
    RenderedMore(done + [Text(p.text)], text + p.text, Argument(p.index, false), args);
    assert done + [Text(p.text)] + [Argument(p.index, false)] == done + [Text(p.text), Argument(p.index, false)];
    ConcatAssoc(text, p.text, args[p.index]);
  }

  lemma {:induction false} RenderedPlaces(done: seq<Segment>, text: string, places: seq<Placeholder>, tail: string,
                                          args: seq<string>)
    requires forall i :: 0 <= i < |places| ==> places[i].index < |args|
    requires InRange(done, |args|) && Rendered(done, Oks(args)) == Ok(text)
    ensures InRange(done + SegmentsOf(places, tail), |args|)
    ensures Rendered(done + SegmentsOf(places, tail), Oks(args)) == Ok(text + Filled(places, tail, args))
    decreases |places|
  {
    if places == [] {
      RenderedMore(done, text, Text(tail), args);
    } else {
      var p, more := places[0], SegmentsOf(places[1..], tail);
      var two := [Text(p.text), Argument(p.index, false)];
      TwoMore(done, text, p, args);
      RenderedPlaces(done + two, text + (p.text + args[p.index]), places[1..], tail, args);
      ConcatAssoc(done, two, more);
      var rest := Filled(places[1..], tail, args);
      ConcatAssoc(text, p.text + args[p.index], rest);
      ConcatAssoc(p.text, args[p.index], rest);
    }
  }

  /** Formatting fills every placeholder with the text of its argument, braces undoubled. */
  lemma FormatMeaning(places: seq<Placeholder>, tail: string, args: seq<string>)
    requires forall i :: 0 <= i < |places| ==> places[i].index < |args| && places[i].index <= 255
    ensures FormatWith(FormatText(places, tail), Oks(args)) == Ok(Filled(places, tail, args))
  {
    SegmentsReadBack(places, tail, |args|);
    RenderedPlaces([], [], places, tail, args);
    assert [] + SegmentsOf(places, tail) == SegmentsOf(places, tail);
    assert [] + Filled(places, tail, args) == Filled(places, tail, args);
  }

  /** A call of `format` with a written format text, whose arguments all have values. */
  lemma FormatCall(name: string, args: seq<Expr>, values: seq<Value>, places: seq<Placeholder>, tail: string,
                   path: Path, host: Host)
    requires AllEvaluate(args, values, path, host) && args != [] && Lower(name) == "format"
    requires values[0] == Str(FormatText(places, tail))
    requires forall i :: 0 <= i < |places| ==> places[i].index < |values| - 1 && places[i].index <= 255
    ensures Eval(FunctionCall(name, args), path, host)
         == Ok(Str(Filled(places, tail, Texts(values[1..], host))))
  {
    EvalFormatRefines(args, values, path, host);
    assert OkTexts(values[1..], host) == Oks(Texts(values[1..], host));
    FormatMeaning(places, tail, Texts(values[1..], host));
  }

  // --------------------------------------------------------------------- refused formats

  lemma SegmentsPast(places: seq<Placeholder>, rest: string, count: nat)
    requires forall i :: 0 <= i < |places| ==> places[i].index < count && places[i].index <= 255
    ensures Segments(rest, [], count).Err? ==>
              Segments(FormatText(places, []) + rest, [], count) == Segments(rest, [], count)
    decreases |places|
  {
    if places == [] {
      assert FormatText(places, []) == [] && [] + rest == rest;
    } else {
      var p, more := places[0], FormatText(places[1..], []);
      SegmentsPast(places[1..], rest, count);
      RegroupFormat(Braced(p.text), DecimalText(p.index), more, rest);
      SegmentsPastText(p.text, "{" + (DecimalText(p.index) + ("}" + (more + rest))), [], count);
      SegmentsPastPlaceholder(p.index, more + rest, [] + p.text, count);
    }
  }

  lemma RegroupFormat(a: string, b: string, c: string, d: string)
    ensures (a + ("{" + (b + ("}" + c)))) + d == a + ("{" + (b + ("}" + (c + d))))
  {
  }

  /** How a format text is refused, whatever well-formed part stands before: a single closing brace, a placeholder
      without an index, one whose index is out of range, and one that is not closed. */
  lemma RefusedFormats(places: seq<Placeholder>, count: nat, index: nat, c: char, rest: string)
    requires forall i :: 0 <= i < |places| ==> places[i].index < count && places[i].index <= 255
    ensures c != '}' ==> Segments(FormatText(places, []) + ("}" + ([c] + rest)), [], count) == Err(FormatBadBrace)
    ensures !IsDigit(c) && c != '{' ==>
              Segments(FormatText(places, []) + ("{" + ([c] + rest)), [], count) == Err(FormatBadIndex)
    ensures !IsDigit(c) && index <= 255 && index >= count ==>
              Segments(FormatText(places, []) + ("{" + (DecimalText(index) + ([c] + rest))), [], count)
              == Err(FormatOutOfRange)
    ensures !IsDigit(c) && c != '}' && c != ':' && index <= 255 && index < count ==>
              Segments(FormatText(places, []) + ("{" + (DecimalText(index) + ([c] + rest))), [], count)
              == Err(FormatUnclosed)
  {
    if c != '}' {
      BadBrace(c, rest, count);
      SegmentsPast(places, "}" + ([c] + rest), count);
    }
    if !IsDigit(c) {
      BadIndex(c, rest, count);
      SegmentsPast(places, "{" + ([c] + rest), count);
      BadPlaceholder(index, c, rest, count);
      SegmentsPast(places, "{" + (DecimalText(index) + ([c] + rest)), count);
    }
  }

  lemma BadBrace(c: char, rest: string, count: nat)
    requires c != '}'
    ensures Segments("}" + ([c] + rest), [], count) == Err(FormatBadBrace)
  {
    var s := "}" + ([c] + rest);
    assert s[0] == '}' && s[1] == c;
  }

  lemma BadIndex(c: char, rest: string, count: nat)
    requires !IsDigit(c)
    ensures c != '{' ==> Segments("{" + ([c] + rest), [], count) == Err(FormatBadIndex)
  {
    var s := "{" + ([c] + rest);
    assert s[0] == '{' && s[1] == c && s[1..] == [c] + rest;
  }

  lemma BadPlaceholder(index: nat, c: char, rest: string, count: nat)
    requires !IsDigit(c)
    ensures var s := "{" + (DecimalText(index) + ([c] + rest));
            && (index <= 255 && index >= count ==> Segments(s, [], count) == Err(FormatOutOfRange))
            && (index <= 255 && index < count && c != '}' && c != ':' ==> Segments(s, [], count) == Err(FormatUnclosed))
  {
    var digits := DecimalText(index);
    var inner := digits + ([c] + rest);
    var s := "{" + inner;
    assert s[0] == '{' && s[1..] == inner && s[1] == digits[0];
    DigitCountOf(digits, [c] + rest);
    assert inner[..|digits|] == digits && s[1 + |digits|..] == [c] + rest;
  }

  // ------------------------------------------------------------------------------ arity

  /** How many arguments each name takes; every other name is unknown. */
  lemma ArityMeaning(name: string, count: nat)
    ensures var s := Lower(name);
            ValidateArity(name, count) == Ok(()) <==>
              || (s in {"contains", "startswith", "endswith"} && count == 2)
              || (s in {"success", "failure", "cancelled", "always"} && count == 0)
              || (s in {"tojson", "fromjson"} && count == 1)
              || (s in {"format", "hashfiles"} && 1 <= count <= 255)
              || (s == "join" && 1 <= count <= 2)
              || (s == "case" && 3 <= count <= 255 && count % 2 == 1)
    ensures ValidateArity(name, count) == Err(UnknownFunction(name)) <==>
              Lower(name) !in {"contains", "startswith", "endswith", "success", "failure", "cancelled", "always",
                               "tojson", "fromjson", "format", "hashfiles", "join", "case"}
  {
  }
}
