/**
 Built-in functions (crates/expressions/src: validation.rs, functions/builtins.rs and
 functions/format.rs). `toJSON`, `fromJSON` and `hashFiles` are the host's.
 */
module Functions {
  import opened Text
  import opened Syntax
  import opened Values

  // ----------------------------------------------------------------------------- names

  function LowerChar(c: char): char {
    if 'A' <= c <= 'Z' then c + ('a' - 'A') else c
  }

  function Lower(s: string): string {
    seq(|s|, i requires 0 <= i < |s| => LowerChar(s[i]))
  }

  datatype Builtin =
    | Case | Contains_ | StartsWith | EndsWith | Format | HashFiles | Join_ | ToJson | FromJson
    | Success | Failure_ | CancelledStatus | Always

  const CASE: string := "case"
  const FORMAT: string := "format"

  /** The function a name calls, whatever its ASCII case. */
  function BuiltinOf(name: string): Option<Builtin> {
    var s := Lower(name);
    if s == CASE then Some(Case)
    else if s == "contains" then Some(Contains_)
    else if s == "startswith" then Some(StartsWith)
    else if s == "endswith" then Some(EndsWith)
    else if s == FORMAT then Some(Format)
    else if s == "hashfiles" then Some(HashFiles)
    else if s == "join" then Some(Join_)
    else if s == "tojson" then Some(ToJson)
    else if s == "fromjson" then Some(FromJson)
    else if s == "success" then Some(Success)
    else if s == "failure" then Some(Failure_)
    else if s == "cancelled" then Some(CancelledStatus)
    else if s == "always" then Some(Always)
    else None
  }

  predicate ArityFits(f: Builtin, count: nat) {
    match f
    case Case => 3 <= count <= 255
    case Contains_ => count == 2
    case StartsWith => count == 2
    case EndsWith => count == 2
    case Format => 1 <= count <= 255
    case HashFiles => 1 <= count <= 255
    case Join_ => 1 <= count <= 2
    case ToJson => count == 1
    case FromJson => count == 1
    case _ => count == 0
  }

  /** `validate_arity`. */
  function ValidateArity(name: string, count: nat): Result<()> {
    match BuiltinOf(name)
    case None => Err(UnknownFunction(name))
    case Some(f) =>
      if !ArityFits(f, count) then Err(WrongArity)
      else if f == Case && count % 2 == 0 then Err(CaseArity)
      else Ok(())
  }

  // ------------------------------------------------------------------------ format text

  datatype Segment = Text(text: string) | Argument(index: nat, badSpecifier: bool)

  function DigitCount(s: string): (n: nat)
    ensures n <= |s|
  {
    if s != [] && IsDigit(s[0]) then 1 + DigitCount(s[1..]) else 0
  }

  /** `str::parse::<u8>` on ASCII digits. */
  function ParseIndex(digits: string): (r: Option<nat>)
    ensures r.Some? ==> r.value <= 255
  {
    if digits == [] || !(0 <= Decimal(digits) <= 255) then None else Some(Decimal(digits))
  }

  /** A specifier up to its closing brace: whether it is nonempty, and its length with the brace. */
  function Specifier(s: string, nonempty: bool): (r: Option<(bool, nat)>)
    ensures r.Some? ==> 0 < r.value.1 <= |s|
    decreases |s|
  {
    if s == [] then None
    else if s[0] != '}' then Past(1, Specifier(s[1..], true))
    else if |s| > 1 && s[1] == '}' then Past(2, Specifier(s[2..], true))
    else Some((nonempty, 1))
  }

  function Past(n: nat, r: Option<(bool, nat)>): Option<(bool, nat)> {
    if r.Some? then Some((r.value.0, r.value.1 + n)) else None
  }

  /** After the index: whether the specifier is unsupported, and the length with the closing brace. */
  function PlaceholderEnd(s: string): (r: Option<(bool, nat)>)
    ensures r.Some? ==> 0 < r.value.1 <= |s|
  {
    if s == [] then None
    else if s[0] == '}' then Some((false, 1))
    else if s[0] == ':' then Past(1, Specifier(s[1..], false))
    else None
  }

  function Prefixed(first: seq<Segment>, r: Result<seq<Segment>>): Result<seq<Segment>> {
    match r
    case Err(f) => Err(f)
    case Ok(more) => Ok(first + more)
  }

  /** `format::parse`, with `text` collected since the last placeholder. */
  function Segments(s: string, text: string, count: nat): (r: Result<seq<Segment>>)
    ensures r.Ok? ==> InRange(r.value, count)
    ensures r.Err? ==> r.error in {FormatBadBrace, FormatBadIndex, FormatOutOfRange, FormatUnclosed}
    decreases |s|
  {
    if s == [] then Ok([Text(text)])
    else if s[0] != '{' && s[0] != '}' then Segments(s[1..], text + [s[0]], count)
    else if |s| > 1 && s[1] == s[0] then Segments(s[2..], text + [s[0]], count)
    else if s[0] == '}' then Err(FormatBadBrace)
    else
      var n := DigitCount(s[1..]);
      match ParseIndex(s[1..][..n])
      case None => Err(FormatBadIndex)
      case Some(index) =>
        if index >= count then Err(FormatOutOfRange)
        else match PlaceholderEnd(s[1 + n..])
          case None => Err(FormatUnclosed)
          case Some((bad, len)) =>
            Prefixed([Text(text), Argument(index, bad)], Segments(s[1 + n + len..], [], count))
  }

  predicate InRange(segments: seq<Segment>, count: nat) {
    forall i :: 0 <= i < |segments| && segments[i].Argument? ==> segments[i].index < count
  }

  // ------------------------------------------------------- format text and its segments

  /** Text with its braces doubled, as a format text writes them. */
  function Braced(text: string): string {
    FlatMap(text, c => if c == '{' || c == '}' then [c, c] else [c])
  }

  function DecimalText(n: nat): (digits: string)
    ensures digits != [] && Decimal(digits) == n && forall i :: 0 <= i < |digits| ==> IsDigit(digits[i])
  {
    var last := '0' + (n % 10) as char;
    if n < 10 then assert Decimal([last][..0]) == 0; [last]
    else
      var front := DecimalText(n / 10);
      assert (front + [last])[..|front|] == front;
      front + [last]
  }

  /** A text, and the argument that follows it. */
  datatype Placeholder = Placeholder(text: string, index: nat)

  /** The format text the placeholders and the text after them are written as. */
  function FormatText(places: seq<Placeholder>, tail: string): string {
    if places == [] then Braced(tail)
    else Braced(places[0].text) + ("{" + (DecimalText(places[0].index) + ("}" + FormatText(places[1..], tail))))
  }

  function SegmentsOf(places: seq<Placeholder>, tail: string): seq<Segment> {
    if places == [] then [Text(tail)]
    else [Text(places[0].text), Argument(places[0].index, false)] + SegmentsOf(places[1..], tail)
  }

  lemma BracedFirst(text: string)
    requires text != []
    ensures Braced(text)
         == (if text[0] == '{' || text[0] == '}' then [text[0], text[0]] else [text[0]]) + Braced(text[1..])
  {
  }

  /** Reading written text back, whatever follows it. */
  lemma {:induction false} SegmentsPastText(text: string, rest: string, done: string, count: nat)
    ensures Segments(Braced(text) + rest, done, count) == Segments(rest, done + text, count)
    decreases |text|
  {
    if text == [] {
      assert Braced(text) + rest == rest && done + text == done;
    } else {
      BracedFirst(text);
      var first := if text[0] == '{' || text[0] == '}' then [text[0], text[0]] else [text[0]];
      var s := Braced(text) + rest;
      ConcatAssoc(first, Braced(text[1..]), rest);
      assert s[0] == text[0] && s[|first|..] == Braced(text[1..]) + rest;
      assert |first| == 2 ==> s[1] == s[0];
      SegmentsPastText(text[1..], rest, done + [text[0]], count);
      assert done + text == (done + [text[0]]) + text[1..];
    }
  }

  lemma {:induction false} DigitCountOf(digits: string, rest: string)
    requires (forall i :: 0 <= i < |digits| ==> IsDigit(digits[i])) && rest != [] && !IsDigit(rest[0])
    ensures DigitCount(digits + rest) == |digits|
    decreases |digits|
  {
    if digits == [] {
      assert digits + rest == rest;
    } else {
      assert (digits + rest)[1..] == digits[1..] + rest;
      DigitCountOf(digits[1..], rest);
    }
  }

  lemma SegmentsPastPlaceholder(index: nat, rest: string, done: string, count: nat)
    requires index < count && index <= 255
    ensures Segments("{" + (DecimalText(index) + ("}" + rest)), done, count)
         == Prefixed([Text(done), Argument(index, false)], Segments(rest, [], count))
  {
    var digits := DecimalText(index);
    var inner := digits + ("}" + rest);
    var s := "{" + inner;
    assert s[1..] == inner && s[1] == digits[0];
    DigitCountOf(digits, "}" + rest);
    var n := |digits|;
    assert inner[..n] == digits;
    assert s[1 + n..] == "}" + rest;
    assert s[1 + n + 1..] == rest;
  }

  /** Parsing a written format text gives back its texts and placeholders, in order. */
  lemma {:induction false} SegmentsReadBack(places: seq<Placeholder>, tail: string, count: nat)
    requires forall i :: 0 <= i < |places| ==> places[i].index < count && places[i].index <= 255
    ensures Segments(FormatText(places, tail), [], count) == Ok(SegmentsOf(places, tail))
    decreases |places|
  {
    if places == [] {
      SegmentsPastText(tail, [], [], count);
      assert Braced(tail) + [] == Braced(tail) && [] + tail == tail;
    } else {
      var p, more := places[0], FormatText(places[1..], tail);
      SegmentsPastText(p.text, "{" + (DecimalText(p.index) + ("}" + more)), [], count);
      assert [] + p.text == p.text;
      SegmentsPastPlaceholder(p.index, more, p.text, count);
      SegmentsReadBack(places[1..], tail, count);
    }
  }

  // ------------------------------------------------------------------------ rendering

  function RenderOne(done: string, segment: Segment, args: seq<Result<string>>): Result<string>
    requires segment.Argument? ==> segment.index < |args|
  {
    match segment
    case Text(text) => Ok(done + text)
    case Argument(index, bad) =>
      match args[index]
      case Err(f) => Err(f)
      case Ok(shown) => if bad then Err(FormatSpecifier) else Ok(done + shown)
  }

  /** Rendering from the left: the first failing argument or specifier wins. */
  function Rendered(segments: seq<Segment>, args: seq<Result<string>>): Result<string>
    requires InRange(segments, |args|)
  {
    if segments == [] then Ok([])
    else
      var n := |segments| - 1;
      match Rendered(segments[..n], args)
      case Err(f) => Err(f)
      case Ok(done) => RenderOne(done, segments[n], args)
  }

  /** `format::render` with every argument's outcome at hand; only the referenced ones are looked at. */
  function FormatWith(template: string, args: seq<Result<string>>): Result<string> {
    match Segments(template, [], |args|)
    case Err(f) => Err(f)
    case Ok(segments) => Rendered(segments, args)
  }

  // --------------------------------------------------------------- the caching renderer

  /** The cache holds what the asked-for arguments gave, and each was asked for once. */
  ghost predicate CacheHolds(cache: seq<Option<string>>, asked: seq<nat>, args: seq<Result<string>>) {
    && |cache| == |args|
    && Once(asked)
    && (forall k :: 0 <= k < |cache| && cache[k].Some? ==> args[k] == Ok(cache[k].value) && k in asked)
    && (forall i :: 0 <= i < |asked| ==> asked[i] < |args| && cache[asked[i]].Some?)
  }

  ghost predicate Once(asked: seq<nat>) {
    forall i, j :: 0 <= i < j < |asked| ==> asked[i] != asked[j]
  }

  ghost predicate Referenced(segments: seq<Segment>, k: nat) {
    exists i :: 0 <= i < |segments| && segments[i].Argument? && segments[i].index == k
  }

  ghost predicate AllReferenced(segments: seq<Segment>, asked: seq<nat>) {
    forall i :: 0 <= i < |asked| ==> Referenced(segments, asked[i])
  }

  /** `render`: `args` is what evaluating each argument would give, `asked` the ones evaluated into the
      cache, in order. */
  method Render(segments: seq<Segment>, args: seq<Result<string>>) returns (r: Result<string>, asked: seq<nat>)
    requires InRange(segments, |args|)
    ensures r == Rendered(segments, args)
    ensures Once(asked) && AllReferenced(segments, asked)
    ensures r.Ok? ==> forall k :: Referenced(segments, k) ==> k in asked
  {
    var cache: seq<Option<string>> := seq(|args|, i => None);
    r := Ok([]);
    asked := [];
    var n := 0;
    while n < |segments| && r.Ok?
      invariant 0 <= n <= |segments|
      invariant Rendered(segments[..n], args) == r
      invariant CacheHolds(cache, asked, args) && AllReferenced(segments, asked)
      invariant r.Ok? ==> forall i :: 0 <= i < n && segments[i].Argument? ==> segments[i].index in asked
    {
      assert segments[..n + 1][..n] == segments[..n];
      if segments[n].Text? {
        r := Ok(r.value + segments[n].text);
      } else {
        var index := segments[n].index;
        if cache[index] == None {
          if args[index].Ok? {
            cache, asked := cache[index := Some(args[index].value)], asked + [index];
          } else {
            r := Err(args[index].error);
          }
        }
        if r.Ok? {
          r := if segments[n].badSpecifier then Err(FormatSpecifier) else Ok(r.value + cache[index].value);
        }
      }
      n := n + 1;
    }
    if r.Err? {
      RenderedFails(segments, n, args);
    } else {
      assert segments[..n] == segments;
    }
  }

  lemma {:induction false} RenderedFails(segments: seq<Segment>, n: nat, args: seq<Result<string>>)
    requires n <= |segments| && InRange(segments, |args|) && Rendered(segments[..n], args).Err?
    ensures Rendered(segments, args) == Rendered(segments[..n], args)
    decreases |segments|
  {
    if n == |segments| {
      assert segments[..n] == segments;
    } else {
      var front := segments[..|segments| - 1];
      assert front[..n] == segments[..n];
      RenderedFails(front, n, args);
    }
  }

  // --------------------------------------------------------------------------- calls

  function OkTexts(args: seq<Value>, host: Host): seq<Result<string>> {
    seq(|args|, i requires 0 <= i < |args| => Ok(ToText(args[i], host)))
  }

  function Texts(items: seq<Value>, host: Host): (texts: seq<string>)
    ensures |texts| == |items|
  {
    seq(|items|, i requires 0 <= i < |items| => ToText(items[i], host))
  }

  predicate Window(haystack: seq<nat>, needle: seq<nat>) {
    exists i :: 0 <= i <= |haystack| && needle <= haystack[i..]
  }

  predicate ContainsOf(search: Value, item: Value, host: Host) {
    match search
    case Array(_, items, _) => exists k :: 0 <= k < |items| && LooseEq(items[k], item, host)
    case Object(_, _) => false
    case _ => IsPrimitive(item) && Window(host.upper(ToText(search, host)), host.upper(ToText(item, host)))
  }

  predicate EndsWithUnits(s: seq<nat>, suffix: seq<nat>) {
    |suffix| <= |s| && s[|s| - |suffix|..] == suffix
  }

  function JoinOf(first: Value, separator: Option<Value>, host: Host): string {
    var sep := if separator.Some? && IsPrimitive(separator.value) then ToText(separator.value, host) else ",";
    match first
    case Array(_, items, _) => Join(Texts(items, host), sep)
    case Object(_, _) => []
    case _ => ToText(first, host)
  }

  /** `fn_case` from argument `k` on: predicate, result, predicate, result, ..., default. */
  function CaseOf(args: seq<Value>, k: nat): Result<Value>
    requires k < |args| && (|args| - k) % 2 == 1
    decreases |args| - k
  {
    if k + 1 < |args| then
      if !args[k].Bool? then Err(CaseNotBoolean)
      else if args[k].b then Ok(args[k + 1])
      else CaseOf(args, k + 2)
    else Ok(args[k])
  }

  function FormatOf(args: seq<Value>, host: Host): Result<Value>
    requires args != []
  {
    match FormatWith(ToText(args[0], host), OkTexts(args[1..], host))
    case Err(f) => Err(f)
    case Ok(text) => Ok(Str(text))
  }

  /** `call_function` on evaluated arguments; `path` is the call's position in the tree. */
  function CallFunction(name: string, args: seq<Value>, path: seq<nat>, host: Host): Result<Value> {
    match ValidateArity(name, |args|)
    case Err(f) => Err(f)
    case Ok(_) =>
      match BuiltinOf(name).value
      case Success => Ok(Bool(host.status == Succeeded))
      case Failure_ => Ok(Bool(host.status == Failed))
      case Always => Ok(Bool(true))
      case CancelledStatus => Ok(Bool(host.status == Cancelled))
      case Contains_ => Ok(Bool(ContainsOf(args[0], args[1], host)))
      case StartsWith =>
        Ok(Bool(IsPrimitive(args[0]) && IsPrimitive(args[1])
          && host.upper(ToText(args[1], host)) <= host.upper(ToText(args[0], host))))
      case EndsWith =>
        Ok(Bool(IsPrimitive(args[0]) && IsPrimitive(args[1])
                && EndsWithUnits(host.upper(ToText(args[0], host)), host.upper(ToText(args[1], host)))))
      case Format => FormatOf(args, host)
      case Case => CaseOf(args, 0)
      case Join_ => Ok(Str(JoinOf(args[0], if |args| > 1 then Some(args[1]) else None, host)))
      case _ =>
        match host.foreign(path, Lower(name), args)
        case Returned(value) => Ok(value)
        case Raised(message) => Err(Foreign(message))
  }

  /** `unused_second`: the first argument alone settles the call. */
  predicate UnusedSecond(name: string, first: Value) {
    match BuiltinOf(name)
    case Some(Contains_) => !IsPrimitive(first) && !(first.Array? && first.items != [])
    case Some(StartsWith) => !IsPrimitive(first)
    case Some(EndsWith) => !IsPrimitive(first)
    case Some(Join_) => !(first.Array? && |first.items| > 1)
    case _ => false
  }

  /** Leaving an unused second argument unevaluated changes no result. */
  lemma UnusedSecondIsUnused(name: string, args: seq<Value>, second: Value, path: seq<nat>, host: Host)
    requires |args| >= 2 && UnusedSecond(name, args[0])
    ensures CallFunction(name, args[1 := second], path, host) == CallFunction(name, args, path, host)
  {
  }
}
