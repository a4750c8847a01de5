/**
 The JSON form of a registered secret (crates/shared/src/secret_masker.rs): what it reads back as, and that
 it is hidden along with the secret itself.
 */
module JsonForm {
  import opened Text
  import opened SecretMasker
  import opened PatternRegistry
  import opened LogRedaction

  // ---------------------------------------------------------------- reading a JSON string

  /** The character a backslash and this letter stand for. */
  function Escape(c: char): Option<char> {
    if c == '\\' || c == '\"' then Some(c)
    else if c == 'n' then Some('\n')
    else if c == 'r' then Some('\r')
    else if c == 't' then Some('\t')
    else None
  }

  /** The rest of a JSON string literal, up to its closing quote: its text, and what follows it. */
  function JsonBody(s: string): Option<(string, string)>
    decreases |s|
  {
    if s == [] then None
    else if s[0] == '\"' then Some(([], s[1..]))
    else if s[0] != '\\' then Reading(s[0], JsonBody(s[1..]))
    else if |s| > 1 && Escape(s[1]).Some? then Reading(Escape(s[1]).value, JsonBody(s[2..]))
    else None
  }

  function Reading(c: char, r: Option<(string, string)>): Option<(string, string)> {
    match r
    case None => None
    case Some((text, rest)) => Some(([c] + text, rest))
  }

  // --------------------------------------------------------------- one character at a time

  function JsonChar(c: char): string {
    if c == '\\' then "\\\\"
    else if c == '\"' then "\\\""
    else if c == '\n' then "\\n"
    else if c == '\r' then "\\r"
    else if c == '\t' then "\\t"
    else [c]
  }

  lemma JsonEscapedAppend(a: string, b: string)
    ensures JsonEscaped(a + b) == JsonEscaped(a) + JsonEscaped(b)
  {
    ReplaceCharAppend(a, b, '\\', "\\\\");
    var a1, b1 := ReplaceChar(a, '\\', "\\\\"), ReplaceChar(b, '\\', "\\\\");
    ReplaceCharAppend(a1, b1, '\"', "\\\"");
    var a2, b2 := ReplaceChar(a1, '\"', "\\\""), ReplaceChar(b1, '\"', "\\\"");
    ReplaceCharAppend(a2, b2, '\n', "\\n");
    var a3, b3 := ReplaceChar(a2, '\n', "\\n"), ReplaceChar(b2, '\n', "\\n");
    ReplaceCharAppend(a3, b3, '\r', "\\r");
    ReplaceCharAppend(ReplaceChar(a3, '\r', "\\r"), ReplaceChar(b3, '\r', "\\r"), '\t', "\\t");
  }

  /** No replacement touches what an earlier one wrote. */
  lemma JsonEscapedOne(c: char)
    ensures JsonEscaped([c]) == JsonChar(c)
  {
    ReplaceCharOne(c, '\\', "\\\\");
    ReplaceCharOne(c, '\"', "\\\"");
    ReplaceCharOne(c, '\n', "\\n");
    ReplaceCharAbsent("\\\\", '\"', "\\\"");
    ReplaceCharAbsent("\\\\", '\n', "\\n");
    ReplaceCharAbsent("\\\"", '\n', "\\n");
    LaterSteps(c);
  }

  lemma LaterSteps(c: char)
    ensures var d := if c == '\\' || c == '\"' || c == '\n' then JsonChar(c) else [c];
            ReplaceChar(ReplaceChar(d, '\r', "\\r"), '\t', "\\t") == JsonChar(c)
  {
    ReplaceCharOne(c, '\r', "\\r");
    ReplaceCharOne(c, '\t', "\\t");
    if |JsonChar(c)| == 2 {
      ReplaceCharAbsent(JsonChar(c), '\r', "\\r");
      ReplaceCharAbsent(JsonChar(c), '\t', "\\t");
    }
  }

  /** The five replacements write every character on its own. */
  lemma {:induction false} JsonEscapedIsOnePass(v: string)
    ensures JsonEscaped(v) == FlatMap(v, JsonChar)
  {
    if v == [] {
      assert JsonEscaped([]) == [];
    } else {
      JsonEscapedIsOnePass(v[1..]);
      assert v == [v[0]] + v[1..];
      JsonEscapedAppend([v[0]], v[1..]);
      JsonEscapedOne(v[0]);
    }
  }

  lemma JsonFirst(v: string)
    requires v != []
    ensures JsonEscaped(v) == JsonChar(v[0]) + JsonEscaped(v[1..])
  {
    JsonEscapedIsOnePass(v);
    JsonEscapedIsOnePass(v[1..]);
  }

  // ------------------------------------------------------------------------ reading it back

  lemma ReadsOne(c: char, rest: string)
    ensures JsonBody(JsonChar(c) + rest) == Reading(c, JsonBody(rest))
  {
    var s := JsonChar(c) + rest;
    if |JsonChar(c)| == 2 {
      assert s[0] == '\\' && s[1] == JsonChar(c)[1] && s[2..] == rest;
    } else {
      assert s[0] == c && s[1..] == rest;
    }
  }

  /** Between quotes, the JSON form of a value reads back as the value, whatever follows the closing quote. */
  lemma {:induction false} JsonFormReadsBack(v: string, rest: string)
    ensures JsonBody(JsonEscaped(v) + ("\"" + rest)) == Some((v, rest))
    decreases |v|
  {
    var end := "\"" + rest;
    if v == [] {
      JsonEscapedIsOnePass(v);
      assert JsonEscaped(v) + end == end && end[1..] == rest;
    } else {
      JsonFirst(v);
      ConcatAssoc(JsonChar(v[0]), JsonEscaped(v[1..]), end);
      ReadsOne(v[0], JsonEscaped(v[1..]) + end);
      JsonFormReadsBack(v[1..], rest);
      assert [v[0]] + v[1..] == v;
    }
  }

  /** It has no newline, return or tab. */
  lemma {:induction false} JsonFormIsOneLine(v: string)
    ensures '\n' !in JsonEscaped(v) && '\r' !in JsonEscaped(v) && '\t' !in JsonEscaped(v)
  {
    if v == [] {
      JsonEscapedIsOnePass(v);
    } else {
      JsonFirst(v);
      JsonFormIsOneLine(v[1..]);
    }
  }

  // ------------------------------------------------------------------- the mask and the form

  /** Stars are written as themselves, so the form holds a mask only where the value does. */
  lemma {:induction false} MaskFromValue(v: string, i: nat) returns (j: nat)
    requires OccursAt(JsonEscaped(v), MASK, i)
    ensures OccursAt(v, MASK, j)
    decreases |v|
  {
    var e := JsonEscaped(v);
    assert e[i] == e[i..i + 3][0] == '*' && e[i + 1] == e[i..i + 3][1] == '*' && e[i + 2] == e[i..i + 3][2] == '*';
    if v == [] {
      JsonEscapedIsOnePass(v);
    }
    JsonFirst(v);
    var first := |JsonChar(v[0])|;
    if i >= first {
      OccursAtShift(JsonChar(v[0]), JsonEscaped(v[1..]), MASK, i - first);
      j := MaskFromValue(v[1..], i - first);
      OccursAtShift([v[0]], v[1..], MASK, j);
      assert v == [v[0]] + v[1..];
      j := j + 1;
    } else {
      assert v[0] == '*' && e[1..] == JsonEscaped(v[1..]);
      StarFirst(v[1..]);
      StarFirst(v[2..]);
      assert v[1..][1..] == v[2..];
      assert v[0..3] == MASK;
      j := 0;
    }
  }

  lemma StarFirst(v: string)
    ensures JsonEscaped(v) != [] && JsonEscaped(v)[0] == '*' ==>
            v != [] && v[0] == '*' && JsonEscaped(v)[1..] == JsonEscaped(v[1..])
  {
    JsonEscapedIsOnePass([]);
    if v != [] {
      JsonFirst(v);
      assert JsonEscaped(v)[0] == JsonChar(v[0])[0];
    }
  }

  lemma {:induction false} LastCharacter(v: string)
    requires v != []
    ensures JsonEscaped(v) != [] && (JsonEscaped(v)[|JsonEscaped(v)| - 1] == '*' <==> v[|v| - 1] == '*')
  {
    var front, c := v[..|v| - 1], v[|v| - 1];
    assert v == front + [c];
    JsonEscapedAppend(front, [c]);
    JsonEscapedOne(c);
    assert JsonEscaped(v)[|JsonEscaped(v)| - 1] == JsonChar(c)[|JsonChar(c)| - 1];
  }

  /** If the mask cannot complete a value, it cannot complete its JSON form. */
  lemma JsonFormIsStarSafe(v: string)
    requires StarSafe(v)
    ensures StarSafe(JsonEscaped(v))
  {
    LastCharacter(v);
    StarFirst(v);
    forall i: nat ensures !OccursAt(JsonEscaped(v), MASK, i) {
      if OccursAt(JsonEscaped(v), MASK, i) {
        var j := MaskFromValue(v, i);
      }
    }
  }

  // ---------------------------------------------------------------------------- what is hidden

  /** Once a secret is registered, whatever else is, its JSON form does not show in masked text. */
  lemma JsonFormNeverShows(value: string, encode: string -> seq<string>, others: set<string>, text: string)
    requires ByteLen(Trim(value)) >= 4 && StarSafe(Trim(value))
    ensures !Contains(Masked(text, others + SecretPatterns(value, encode)), JsonEscaped(Trim(value)))
  {
    JsonFormIsStarSafe(Trim(value));
    RegisteredSecretNeverShows(value, encode, others, text, JsonEscaped(Trim(value)));
  }

  /** Nor in the log, even where the secret itself, having several lines, can. */
  lemma JsonFormNeverInLog(value: string, encode: string -> seq<string>)
    requires ByteLen(Trim(value)) >= 4 && StarSafe(Trim(value))
    ensures NeverInLog(JsonEscaped(Trim(value)), SecretPatterns(value, encode))
  {
    var form := JsonEscaped(Trim(value));
    JsonFormIsStarSafe(Trim(value));
    JsonFormIsOneLine(Trim(value));
    WholeIsOnOneLine(form, SecretPatterns(value, encode));
    NeverInLogIff(form, SecretPatterns(value, encode));
  }
}
