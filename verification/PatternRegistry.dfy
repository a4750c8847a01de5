/**
 Registering secrets with the masker (crates/shared/src/secret_masker.rs): which patterns one
 value contributes, and the longest-first order every insertion keeps.
 */
module PatternRegistry {
  import opened Text
  import opened SecretMasker

  predicate LongestFirst(patterns: seq<string>) {
    forall i, j :: 0 <= i < j < |patterns| ==> ByteLen(patterns[i]) >= ByteLen(patterns[j])
  }

  // ------------------------------------------------ what a value contributes

  function JsonEscaped(value: string): string {
    ReplaceChar(ReplaceChar(ReplaceChar(ReplaceChar(ReplaceChar(value,
      '\\', "\\\\"), '\"', "\\\""), '\n', "\\n"), '\r', "\\r"), '\t', "\\t")
  }

  function LongEnough(variants: seq<string>): set<string> {
    if variants == [] then {}
    else
      var rest, v := LongEnough(variants[..|variants| - 1]), variants[|variants| - 1];
      if ByteLen(v) >= MIN_SECRET_LEN then rest + {v} else rest
  }

  lemma LongEnoughStep(variants: seq<string>, i: nat)
    requires i < |variants|
    ensures LongEnough(variants[..i + 1])
         == LongEnough(variants[..i]) + if ByteLen(variants[i]) >= MIN_SECRET_LEN then {variants[i]} else {}
  {
    assert variants[..i + 1][..i] == variants[..i];
  }

  /** `add_pattern`: the value, its JSON form, and its encodings that are long enough. */
  function PatternsOf(value: string, encode: string -> seq<string>): set<string> {
    {value, JsonEscaped(value)} + LongEnough(encode(value))
  }

  function LinesOf(value: string): seq<string> {
    Split(value, {'\n', '\r'})
  }

  /** The patterns of every trimmed line of at least `min` bytes. */
  function LinePatterns(lines: seq<string>, min: nat, encode: string -> seq<string>): set<string> {
    if lines == [] then {}
    else
      var rest, line := LinePatterns(lines[..|lines| - 1], min, encode), Trim(lines[|lines| - 1]);
      if ByteLen(line) >= min then rest + PatternsOf(line, encode) else rest
  }

  /** `add_secret`: the trimmed value and its trimmed lines, each if long enough. */
  function SecretPatterns(value: string, encode: string -> seq<string>): set<string> {
    var trimmed := Trim(value);
    if ByteLen(trimmed) < MIN_SECRET_LEN then {}
    else PatternsOf(trimmed, encode) + LinePatterns(LinesOf(trimmed), MIN_SECRET_LEN, encode)
  }

  /** `add_mask`: the exact value and its nonempty trimmed lines. */
  function MaskPatterns(value: string, encode: string -> seq<string>): set<string> {
    if Trim(value) == [] then {}
    else PatternsOf(value, encode) + LinePatterns(LinesOf(value), 1, encode)
  }

  lemma LinePatternsStep(lines: seq<string>, min: nat, encode: string -> seq<string>, i: nat)
    requires i < |lines|
    ensures LinePatterns(lines[..i + 1], min, encode) == LinePatterns(lines[..i], min, encode)
              + if ByteLen(Trim(lines[i])) >= min then PatternsOf(Trim(lines[i]), encode) else {}
  {
    assert lines[..i + 1][..i] == lines[..i];
  }

  lemma {:induction false} LineIsRegistered(lines: seq<string>, min: nat, encode: string -> seq<string>, i: nat)
    requires i < |lines| && ByteLen(Trim(lines[i])) >= min
    ensures Trim(lines[i]) in LinePatterns(lines, min, encode)
    decreases |lines|
  {
    if i < |lines| - 1 {
      LineIsRegistered(lines[..|lines| - 1], min, encode, i);
    }
  }

  lemma {:induction false} FlatMapGrows(s: string, f: char -> string)
    requires forall c :: f(c) != []
    ensures |FlatMap(s, f)| >= |s|
    ensures forall c :: c in s && f(c) == [c] ==> c in FlatMap(s, f)
    ensures (exists c :: c in s && |f(c)| > 1) ==> |FlatMap(s, f)| > |s|
  {
    if s != [] {
      FlatMapGrows(s[1..], f);
    }
  }

  lemma ReplaceCharGrows(s: string, c: char, sub: string)
    requires sub != []
    ensures |ReplaceChar(s, c, sub)| >= |s|
    ensures forall x :: x in s && x != c ==> x in ReplaceChar(s, c, sub)
    ensures c in s && |sub| > 1 ==> |ReplaceChar(s, c, sub)| > |s|
  {
    var f := x => if x == c then sub else [x];
    FlatMapGrows(s, f);
    assert f(c) == sub;
  }

  /** Escaping shortens nothing, and a newline makes the text longer. */
  lemma JsonEscapedGrows(v: string)
    ensures |JsonEscaped(v)| >= |v| && ('\n' in v ==> |JsonEscaped(v)| > |v|)
  {
    var a := ReplaceChar(v, '\\', "\\\\");
    var b := ReplaceChar(a, '\"', "\\\"");
    var c := ReplaceChar(b, '\n', "\\n");
    var d := ReplaceChar(c, '\r', "\\r");
    ReplaceCharGrows(v, '\\', "\\\\");
    ReplaceCharGrows(a, '\"', "\\\"");
    ReplaceCharGrows(b, '\n', "\\n");
    ReplaceCharGrows(c, '\r', "\\r");
    ReplaceCharGrows(d, '\t', "\\t");
  }

  /** The standard library's `partition_point`: binary search for the end of the elements of size at least `n`. */
  method PartitionPoint<T>(s: seq<T>, size: T -> nat, n: nat) returns (pos: nat)
    requires forall i, j :: 0 <= i < j < |s| ==> size(s[i]) >= size(s[j])
    ensures pos <= |s|
    ensures forall i :: 0 <= i < pos ==> size(s[i]) >= n
    ensures forall i :: pos <= i < |s| ==> size(s[i]) < n
  {
    var lo, hi := 0, |s|;
    while lo < hi
      invariant 0 <= lo <= hi <= |s|
      invariant forall i :: 0 <= i < lo ==> size(s[i]) >= n
      invariant forall i :: hi <= i < |s| ==> size(s[i]) < n
    {
      var mid := (lo + hi) / 2;
      if size(s[mid]) >= n {
        lo := mid + 1;
      } else {
        hi := mid;
      }
    }
    pos := lo;
  }

  // --------------------------------------------------------------- the registry

  class Registry {
    const encode: string -> seq<string>
    var patterns: seq<string>

    ghost predicate Valid()
      reads this
    {
      LongestFirst(patterns) && NoDup(patterns) && [] !in patterns
    }

    constructor (encode: string -> seq<string>)
      ensures Valid() && patterns == [] && this.encode == encode
    {
      this.encode, patterns := encode, [];
    }

    method InsertPattern(pattern: string)
      requires Valid() && pattern != []
      modifies this
      ensures Valid()
      ensures Elements(patterns) == Elements(old(patterns)) + {pattern}
    {
      if pattern in patterns {
        return;
      }
      var pos := PartitionPoint(patterns, ByteLen, ByteLen(pattern));
      InsertAtKeepsDistinct(patterns, pattern, pos);
      InsertAtElements(patterns, pattern, pos);
      InsertAtKeepsOrder(patterns, pattern, pos, ByteLen);
      patterns := InsertAt(patterns, pattern, pos);
    }

    method AddPattern(value: string)
      requires Valid() && value != []
      modifies this
      ensures Valid()
      ensures Elements(patterns) == Elements(old(patterns)) + PatternsOf(value, encode)
    {
      InsertPattern(value);
      var escaped := JsonEscaped(value);
      JsonEscapedGrows(value);
      if escaped != value {
        InsertPattern(escaped);
      }
      AddVariants(encode(value));
    }

    method AddVariants(variants: seq<string>)
      requires Valid()
      modifies this
      ensures Valid()
      ensures Elements(patterns) == Elements(old(patterns)) + LongEnough(variants)
    {
      var i := 0;
      while i < |variants|
        invariant 0 <= i <= |variants| && Valid()
        invariant Elements(patterns) == Elements(old(patterns)) + LongEnough(variants[..i])
      {
        LongEnoughStep(variants, i);
        if ByteLen(variants[i]) >= MIN_SECRET_LEN {
          InsertPattern(variants[i]);
        }
        i := i + 1;
      }
      assert variants[..i] == variants;
    }

    /** The per-line loop shared by both registrations. */
    method AddLines(lines: seq<string>, min: nat)
      requires Valid() && min >= 1
      modifies this
      ensures Valid()
      ensures Elements(patterns) == Elements(old(patterns)) + LinePatterns(lines, min, encode)
    {
      var i := 0;
      while i < |lines|
        invariant 0 <= i <= |lines| && Valid()
        invariant Elements(patterns) == Elements(old(patterns)) + LinePatterns(lines[..i], min, encode)
      {
        LinePatternsStep(lines, min, encode, i);
        var line := Trim(lines[i]);
        if ByteLen(line) >= min {
          AddPattern(line);
        }
        i := i + 1;
      }
      assert lines[..i] == lines;
    }

    method AddSecret(value: string)
      requires Valid()
      modifies this
      ensures Valid()
      ensures Elements(patterns) == Elements(old(patterns)) + SecretPatterns(value, encode)
    {
      var trimmed := Trim(value);
      if ByteLen(trimmed) < MIN_SECRET_LEN {
        return;
      }
      AddPattern(trimmed);
      AddLines(LinesOf(trimmed), MIN_SECRET_LEN);
    }

    method AddMask(value: string)
      requires Valid()
      modifies this
      ensures Valid()
      ensures Elements(patterns) == Elements(old(patterns)) + MaskPatterns(value, encode)
    {
      if Trim(value) == [] {
        return;
      }
      AddPattern(value);
      AddLines(LinesOf(value), 1);
    }
  }

  function InsertAt<T>(s: seq<T>, x: T, pos: nat): seq<T>
    requires pos <= |s|
  {
    s[..pos] + [x] + s[pos..]
  }

  lemma InsertAtKeepsDistinct<T>(s: seq<T>, x: T, pos: nat)
    requires pos <= |s| && x !in s && forall i, j :: 0 <= i < j < |s| ==> s[i] != s[j]
    ensures var r := InsertAt(s, x, pos); forall i, j :: 0 <= i < j < |r| ==> r[i] != r[j]
  {
  }

  lemma InsertAtElements<T>(s: seq<T>, x: T, pos: nat)
    requires pos <= |s|
    ensures forall y :: y in InsertAt(s, x, pos) <==> y in s || y == x
  {
    assert s == s[..pos] + s[pos..];
  }

  lemma InsertAtKeepsOrder<T>(s: seq<T>, x: T, pos: nat, size: T -> nat)
    requires pos <= |s| && forall i, j :: 0 <= i < j < |s| ==> size(s[i]) >= size(s[j])
    requires forall i :: 0 <= i < pos ==> size(s[i]) >= size(x)
    requires forall i :: pos <= i < |s| ==> size(s[i]) < size(x)
    ensures var r := InsertAt(s, x, pos); forall i, j :: 0 <= i < j < |r| ==> size(r[i]) >= size(r[j])
  {
  }

  // ----------------------------------------------------------- what registration buys

  /** `line` stands in `v` between line breaks, or at an end of it. */
  predicate IsLineOf(v: string, before: string, line: string, after: string) {
    && v == before + (line + after) && FreeOf(line, {'\n', '\r'})
    && (before != [] ==> before[|before| - 1] == '\n' || before[|before| - 1] == '\r')
    && (after != [] ==> after[0] == '\n' || after[0] == '\r')
  }

  lemma LineIsFound(v: string, before: string, line: string, after: string)
    requires IsLineOf(v, before, line, after)
    ensures line in LinesOf(v)
  {
    var seps, tail := {'\n', '\r'}, line + after;
    assert Split(tail, seps)[0] == line by {
      if after == [] {
        assert tail == line;
        SplitWhole(line, seps);
      } else {
        assert after == after[..1] + after[1..];
        SplitFirst(line, after[..1], after[1..], seps);
      }
    }
    if before == [] {
      assert v == tail;
    } else {
      var n := |before| - 1;
      assert v == before[..n] + (before[n..] + tail);
      SplitAt(before[..n], before[n..], tail, seps);
    }
  }

  /** The forms in which a registered text is recognised: itself, its JSON form, its encodings of at least four
      bytes. */
  predicate IsFormOf(w: string, encode: string -> seq<string>, form: string) {
    form == w || form == JsonEscaped(w) || (form in encode(w) && ByteLen(form) >= 4)
  }

  lemma {:induction false} LongEnoughHas(variants: seq<string>, v: string)
    ensures v in LongEnough(variants) <==> v in variants && ByteLen(v) >= 4
  {
    if variants != [] {
      var n := |variants| - 1;
      LongEnoughHas(variants[..n], v);
      assert variants == variants[..n] + [variants[n]];
    }
  }

  lemma FormIsPattern(w: string, encode: string -> seq<string>, form: string)
    ensures form in PatternsOf(w, encode) <==> IsFormOf(w, encode, form)
  {
    LongEnoughHas(encode(w), form);
  }

  /** Every piece of a split stands between separators. */
  lemma {:induction false} FoundIsLine(v: string, i: nat) returns (before: string, after: string)
    requires i < |LinesOf(v)|
    ensures IsLineOf(v, before, LinesOf(v)[i], after) && (i == 0 <==> before == [])
    decreases |v|
  {
    before, after := [], [];
    if v != [] {
      var lines := LinesOf(v[1..]);
      if v[0] == '\n' || v[0] == '\r' {
        if i == 0 {
          after := v;
        } else {
          before, after := FoundIsLine(v[1..], i - 1);
          before := [v[0]] + before;
        }
      } else {
        before, after := FoundIsLine(v[1..], i);
        if i == 0 {
          assert v == [v[0]] + lines[0] + after;
        } else {
          before := [v[0]] + before;
        }
      }
    }
  }

  /** Trimmed, the line has at least `min` bytes and this form. */
  predicate Gives(line: string, min: nat, encode: string -> seq<string>, form: string) {
    ByteLen(Trim(line)) >= min && IsFormOf(Trim(line), encode, form)
  }

  ghost predicate LineHasForm(v: string, min: nat, encode: string -> seq<string>, form: string) {
    exists before, line, after :: IsLineOf(v, before, line, after) && Gives(line, min, encode, form)
  }

  lemma OneLinePattern(front: seq<string>, line: string, min: nat, encode: string -> seq<string>, form: string)
    ensures form in LinePatterns(front + [line], min, encode)
       <==> form in LinePatterns(front, min, encode) || Gives(line, min, encode, form)
  {
    assert (front + [line])[..|front|] == front;
    FormIsPattern(Trim(line), encode, form);
  }

  lemma {:induction false} LinePatternsHas(lines: seq<string>, min: nat, encode: string -> seq<string>, form: string)
    ensures form in LinePatterns(lines, min, encode)
       <==> exists line :: line in lines && Gives(line, min, encode, form)
    decreases |lines|
  {
    if lines != [] {
      var front, last := lines[..|lines| - 1], lines[|lines| - 1];
      assert lines == front + [last];
      LinePatternsHas(front, min, encode, form);
      OneLinePattern(front, last, min, encode, form);
    }
  }

  lemma LinePatternsIff(v: string, min: nat, encode: string -> seq<string>, form: string)
    ensures form in LinePatterns(LinesOf(v), min, encode) <==> LineHasForm(v, min, encode, form)
  {
    var lines := LinesOf(v);
    LinePatternsHas(lines, min, encode, form);
    if line :| line in lines && Gives(line, min, encode, form) {
      var i :| 0 <= i < |lines| && lines[i] == line;
      var before, after := FoundIsLine(v, i);
    }
    if LineHasForm(v, min, encode, form) {
      var before, line, after :| IsLineOf(v, before, line, after) && Gives(line, min, encode, form);
      LineIsFound(v, before, line, after);
    }
  }

  /** Exactly what a secret registers: the forms of the trimmed value, and of each line of it, of at least four
      bytes. */
  lemma SecretPatternsIff(value: string, encode: string -> seq<string>, form: string)
    ensures form in SecretPatterns(value, encode)
       <==> ByteLen(Trim(value)) >= 4
            && (IsFormOf(Trim(value), encode, form) || LineHasForm(Trim(value), 4, encode, form))
  {
    FormIsPattern(Trim(value), encode, form);
    LinePatternsIff(Trim(value), 4, encode, form);
  }

  /** Exactly what a workflow mask registers: the forms of the exact value and of its nonblank lines. */
  lemma MaskPatternsIff(value: string, encode: string -> seq<string>, form: string)
    ensures form in MaskPatterns(value, encode)
       <==> Trim(value) != [] && (IsFormOf(value, encode, form) || LineHasForm(value, 1, encode, form))
  {
    FormIsPattern(value, encode, form);
    LinePatternsIff(value, 1, encode, form);
  }

  /** Once a secret is registered, whatever else is, no form of it or of a line of it that the mask cannot
      complete appears in masked text. */
  lemma RegisteredSecretNeverShows(value: string, encode: string -> seq<string>, others: set<string>, text: string,
                                   form: string)
    requires ByteLen(Trim(value)) >= 4 && StarSafe(form)
    requires IsFormOf(Trim(value), encode, form) || LineHasForm(Trim(value), 4, encode, form)
    ensures !Contains(Masked(text, others + SecretPatterns(value, encode)), form)
  {
    SecretPatternsIff(value, encode, form);
    NoPatternSurvives(text, others + SecretPatterns(value, encode), form);
  }

  /** The same of a workflow mask. */
  lemma RegisteredMaskNeverShows(value: string, encode: string -> seq<string>, others: set<string>, text: string,
                                 form: string)
    requires Trim(value) != [] && StarSafe(form)
    requires IsFormOf(value, encode, form) || LineHasForm(value, 1, encode, form)
    ensures !Contains(Masked(text, others + MaskPatterns(value, encode)), form)
  {
    MaskPatternsIff(value, encode, form);
    NoPatternSurvives(text, others + MaskPatterns(value, encode), form);
  }
}
