/**
 systemd units (crates/config/src/service_unit.rs): the renderers with their escaping, the word
 splitter and the parsers that read a unit back, and the round trip between them.
 */
module SystemdUnit {
  import opened Text

  // ---------------------------------------------------------------------- escaping

  /** One character inside a quoted `ExecStart` word. */
  function QuoteChar(c: char): string {
    if c == '\\' then "\\\\"
    else if c == '\"' then "\\\""
    else if c == '\'' then "\\\'"
    else if c == '$' then "$$"
    else if c == '%' then "%%"
    else [c]
  }

  /** `systemd_quote`: five replacements, one after the other, between double quotes. */
  function SystemdQuote(raw: string): string {
    "\"" + QuoteEscaped(raw) + "\""
  }

  function QuoteEscaped(raw: string): string {
    ReplaceChar(ReplaceChar(ReplaceChar(ReplaceChar(ReplaceChar(raw,
      '\\', "\\\\"), '\"', "\\\""), '\'', "\\\'"), '$', "$$"), '%', "%%")
  }

  /** One character inside a quoted `Environment` assignment. */
  function EnvChar(c: char): string {
    if c == '\\' then "\\\\"
    else if c == '\"' then "\\\""
    else if c == '%' then "%%"
    else [c]
  }

  function EnvEscaped(raw: string): string {
    ReplaceChar(ReplaceChar(ReplaceChar(raw, '\\', "\\\\"), '\"', "\\\""), '%', "%%")
  }

  /** `systemd_env_assignment`. */
  function EnvAssignment(key: string, value: string): string {
    "\"" + EnvEscaped(key + "=" + value) + "\""
  }

  lemma QuoteEscapedOne(c: char)
    ensures QuoteEscaped([c]) == QuoteChar(c)
  {
    ReplaceCharOne(c, '\\', "\\\\");
    var a := ReplaceChar([c], '\\', "\\\\");
    if c == '\\' {
      ReplaceCharAbsent(a, '\"', "\\\"");
      ReplaceCharAbsent(a, '\'', "\\\'");
      ReplaceCharAbsent(a, '$', "$$");
      ReplaceCharAbsent(a, '%', "%%");
    } else {
      ReplaceCharOne(c, '\"', "\\\"");
      var b := ReplaceChar([c], '\"', "\\\"");
      if c == '\"' {
        ReplaceCharAbsent(b, '\'', "\\\'");
        ReplaceCharAbsent(b, '$', "$$");
        ReplaceCharAbsent(b, '%', "%%");
      } else {
        ReplaceCharOne(c, '\'', "\\\'");
        var d := ReplaceChar([c], '\'', "\\\'");
        if c == '\'' {
          ReplaceCharAbsent(d, '$', "$$");
          ReplaceCharAbsent(d, '%', "%%");
        } else {
          ReplaceCharOne(c, '$', "$$");
          ReplaceCharOne(c, '%', "%%");
          ReplaceCharAbsent("$$", '%', "%%");
        }
      }
    }
  }

  lemma EnvEscapedOne(c: char)
    ensures EnvEscaped([c]) == EnvChar(c)
  {
    ReplaceCharOne(c, '\\', "\\\\");
    ReplaceCharOne(c, '\"', "\\\"");
    ReplaceCharOne(c, '%', "%%");
    ReplaceCharAbsent("\\\\", '\"', "\\\"");
    ReplaceCharAbsent("\\\\", '%', "%%");
    ReplaceCharAbsent("\\\"", '%', "%%");
  }

  lemma QuoteEscapedAppend(a: string, b: string)
    ensures QuoteEscaped(a + b) == QuoteEscaped(a) + QuoteEscaped(b)
  {
    ReplaceCharAppend(a, b, '\\', "\\\\");
    var a1, b1 := ReplaceChar(a, '\\', "\\\\"), ReplaceChar(b, '\\', "\\\\");
    ReplaceCharAppend(a1, b1, '\"', "\\\"");
    var a2, b2 := ReplaceChar(a1, '\"', "\\\""), ReplaceChar(b1, '\"', "\\\"");
    ReplaceCharAppend(a2, b2, '\'', "\\\'");
    var a3, b3 := ReplaceChar(a2, '\'', "\\\'"), ReplaceChar(b2, '\'', "\\\'");
    ReplaceCharAppend(a3, b3, '$', "$$");
    ReplaceCharAppend(ReplaceChar(a3, '$', "$$"), ReplaceChar(b3, '$', "$$"), '%', "%%");
  }

  lemma EnvEscapedAppend(a: string, b: string)
    ensures EnvEscaped(a + b) == EnvEscaped(a) + EnvEscaped(b)
  {
    ReplaceCharAppend(a, b, '\\', "\\\\");
    var a1, b1 := ReplaceChar(a, '\\', "\\\\"), ReplaceChar(b, '\\', "\\\\");
    ReplaceCharAppend(a1, b1, '\"', "\\\"");
    ReplaceCharAppend(ReplaceChar(a1, '\"', "\\\""), ReplaceChar(b1, '\"', "\\\""), '%', "%%");
  }

  /** The replacement chain is the one-pass escape: no replacement touches another's output. */
  lemma {:induction false} QuoteEscapedIsOnePass(raw: string)
    ensures QuoteEscaped(raw) == FlatMap(raw, QuoteChar)
  {
    if raw != [] {
      QuoteEscapedIsOnePass(raw[1..]);
      assert raw == [raw[0]] + raw[1..];
      QuoteEscapedAppend([raw[0]], raw[1..]);
      QuoteEscapedOne(raw[0]);
    }
  }

  lemma {:induction false} EnvEscapedIsOnePass(raw: string)
    ensures EnvEscaped(raw) == FlatMap(raw, EnvChar)
  {
    if raw != [] {
      EnvEscapedIsOnePass(raw[1..]);
      assert raw == [raw[0]] + raw[1..];
      EnvEscapedAppend([raw[0]], raw[1..]);
      EnvEscapedOne(raw[0]);
    }
  }

  // ----------------------------------------------------------------- word splitting

  /** What `systemd_words` has collected so far. */
  datatype Splitter = Splitter(words: seq<string>, word: string, inWord: bool, quoted: bool)
  {
    function Push(c: char): Splitter {
      Splitter(words, word + [c], true, quoted)
    }

    function PushAll(w: string): Splitter {
      Splitter(words, word + w, true, quoted)
    }

    function Finished(): seq<string> {
      if inWord then words + [word] else words
    }
  }

  const START := Splitter([], [], false, false)

  /** How many characters the next step takes, and the state after it. */
  function Step(line: string, st: Splitter): (r: (nat, Splitter))
    requires line != []
    ensures 1 <= r.0 <= |line|
  {
    var c := line[0];
    if c == '\"' then (1, st.(quoted := !st.quoted, inWord := true))
    else if c == '\\' then
      if |line| > 1 then (2, st.Push(line[1])) else (1, st.(inWord := true))
    else if (c == '$' || c == '%') && |line| > 1 && line[1] == c then (2, st.Push(c))
    else if IsWhitespace(c) && !st.quoted then
      (1, if st.inWord then st.(words := st.words + [st.word], word := [], inWord := false) else st)
    else (1, st.Push(c))
  }

  function WordsFrom(line: string, st: Splitter): seq<string>
    decreases |line|
  {
    if line == [] then st.Finished()
    else
      var (n, st') := Step(line, st);
      WordsFrom(line[n..], st')
  }

  function Words(line: string): seq<string> {
    WordsFrom(line, START)
  }

  method SystemdWords(line: string) returns (words: seq<string>)
    ensures words == Words(line)
  {
    var word: string := [];
    var inWord, quoted := false, false;
    words := [];
    var i := 0;
    while i < |line|
      invariant 0 <= i <= |line|
      invariant WordsFrom(line[i..], Splitter(words, word, inWord, quoted)) == Words(line)
    {
      var c := line[i];
      ghost var n := Step(line[i..], Splitter(words, word, inWord, quoted)).0;
      assert line[i..][n..] == line[i + n..];
      i := i + 1;
      if c == '\"' {
        quoted := !quoted;
        inWord := true;
      } else if c == '\\' {
        if i < |line| {
          word := word + [line[i]];
          i := i + 1;
        }
        inWord := true;
      } else if (c == '$' || c == '%') && i < |line| && line[i] == c {
        i := i + 1;
        word := word + [c];
        inWord := true;
      } else if IsWhitespace(c) && !quoted {
        if inWord {
          words := words + [word];
          word := [];
          inWord := false;
        }
      } else {
        word := word + [c];
        inWord := true;
      }
    }
    assert line[i..] == [];
    if inWord {
      words := words + [word];
    }
  }

  // ------------------------------------------------- words of what the renderer wrote

  lemma QuotedCharStep(c: char, rest: string, st: Splitter)
    requires st.quoted
    ensures WordsFrom(QuoteChar(c) + rest, st) == WordsFrom(rest, st.Push(c))
  {
  }

  lemma {:induction false} QuotedBody(raw: string, rest: string, st: Splitter)
    requires st.quoted && st.inWord
    ensures WordsFrom(FlatMap(raw, QuoteChar) + rest, st) == WordsFrom(rest, st.PushAll(raw))
    decreases |raw|
  {
    if raw == [] {
      assert FlatMap(raw, QuoteChar) + rest == rest;
      assert st.word + raw == st.word;
    } else {
      var c, tail := raw[0], raw[1..];
      ConcatAssoc(QuoteChar(c), FlatMap(tail, QuoteChar), rest);
      QuotedCharStep(c, FlatMap(tail, QuoteChar) + rest, st);
      QuotedBody(tail, rest, st.Push(c));
      ConcatAssoc(st.word, [c], tail);
      assert raw == [c] + tail;
    }
  }

  /** A quoted path is read back as itself, whatever follows. */
  lemma QuotedWord(raw: string, rest: string, st: Splitter)
    requires !st.quoted
    ensures WordsFrom(SystemdQuote(raw) + rest, st) == WordsFrom(rest, st.PushAll(raw))
  {
    QuoteEscapedIsOnePass(raw);
    var inside := st.(quoted := true, inWord := true);
    assert SystemdQuote(raw) + rest == "\"" + (FlatMap(raw, QuoteChar) + ("\"" + rest));
    QuotedBody(raw, "\"" + rest, inside);
  }

  predicate IsPlain(c: char) {
    c != '\"' && c != '\\' && c != '$' && c != '%' && !IsWhitespace(c)
  }

  lemma {:induction false} PlainWord(w: string, rest: string, st: Splitter)
    requires w != [] && forall i :: 0 <= i < |w| ==> IsPlain(w[i])
    ensures WordsFrom(w + rest, st) == WordsFrom(rest, st.PushAll(w))
    decreases |w|
  {
    var c, tail := w[0], w[1..];
    assert w + rest == [c] + (tail + rest);
    assert ([c] + (tail + rest))[0] == c;
    assert (st.word + [c]) + tail == st.word + w;
    if tail == [] {
      assert tail + rest == rest;
    } else {
      PlainWord(tail, rest, st.Push(c));
    }
  }

  /** A word, then a space, then the rest of the command line. */
  lemma PlainThenSpace(w: string, rest: string, words: seq<string>)
    requires w != [] && forall i :: 0 <= i < |w| ==> IsPlain(w[i])
    ensures WordsFrom(w + (" " + rest), Splitter(words, [], false, false))
         == WordsFrom(rest, Splitter(words + [w], [], false, false))
  {
    var st := Splitter(words, [], false, false);
    PlainWord(w, " " + rest, st);
    assert [] + w == w;
  }

  lemma QuotedThenSpace(raw: string, rest: string, words: seq<string>)
    ensures WordsFrom(SystemdQuote(raw) + (" " + rest), Splitter(words, [], false, false))
         == WordsFrom(rest, Splitter(words + [raw], [], false, false))
  {
    var st := Splitter(words, [], false, false);
    QuotedWord(raw, " " + rest, st);
    assert [] + raw == raw;
  }

  function ExecConfig(exe: string, config: string): string {
    SystemdQuote(exe) + " run --config " + SystemdQuote(config)
  }

  function ExecAll(exe: string): string {
    SystemdQuote(exe) + " run --all"
  }

  lemma QuotedLast(raw: string, words: seq<string>)
    ensures WordsFrom(SystemdQuote(raw), Splitter(words, [], false, false)) == words + [raw]
  {
    QuotedWord(raw, [], Splitter(words, [], false, false));
    assert SystemdQuote(raw) + [] == SystemdQuote(raw) && [] + raw == raw;
  }

  lemma PlainLast(w: string, words: seq<string>)
    requires w != [] && forall i :: 0 <= i < |w| ==> IsPlain(w[i])
    ensures WordsFrom(w, Splitter(words, [], false, false)) == words + [w]
  {
    PlainWord(w, [], Splitter(words, [], false, false));
    assert w + [] == w && [] + w == w;
  }

  lemma ExecConfigSplits(exe: string, config: string)
    ensures ExecConfig(exe, config)
         == SystemdQuote(exe) + (" " + ("run" + (" " + ("--config" + (" " + SystemdQuote(config))))))
  {
  }

  /** The command line of a registration unit splits into exactly its four words. */
  lemma WordsOfExecConfig(exe: string, config: string)
    ensures Words(ExecConfig(exe, config)) == [exe, "run", "--config", config]
  {
    var q := SystemdQuote(config);
    ExecConfigSplits(exe, config);
    QuotedThenSpace(exe, "run" + (" " + ("--config" + (" " + q))), []);
    PlainThenSpace("run", "--config" + (" " + q), [] + [exe]);
    PlainThenSpace("--config", q, [] + [exe] + ["run"]);
    QuotedLast(config, [] + [exe] + ["run"] + ["--config"]);
    assert [] + [exe] + ["run"] + ["--config"] + [config] == [exe, "run", "--config", config];
  }

  lemma ExecAllSplits(exe: string)
    ensures ExecAll(exe) == SystemdQuote(exe) + (" " + ("run" + (" " + "--all")))
  {
  }

  lemma WordsOfExecAll(exe: string)
    ensures Words(ExecAll(exe)) == [exe, "run", "--all"]
  {
    ExecAllSplits(exe);
    QuotedThenSpace(exe, "run" + (" " + "--all"), []);
    PlainThenSpace("run", "--all", [] + [exe]);
    PlainLast("--all", [] + [exe] + ["run"]);
    assert [] + [exe] + ["run"] + ["--all"] == [exe, "run", "--all"];
  }

  // ------------------------------------------------ words of an environment assignment

  /** What is left of a value whose adjacent dollar signs the splitter collapsed. */
  function Collapsed(s: string): string {
    if s == [] then []
    else if s[0] == '$' && |s| > 1 && s[1] == '$' then ['$'] + Collapsed(s[2..])
    else [s[0]] + Collapsed(s[1..])
  }

  predicate DollarPairAt(s: string, i: nat) {
    i + 1 < |s| && s[i] == '$' && s[i + 1] == '$'
  }

  predicate HasDoubleDollar(s: string) {
    exists i: nat :: i < |s| && DollarPairAt(s, i)
  }

  lemma {:induction false} CollapsedLength(s: string)
    ensures |Collapsed(s)| <= |s|
    ensures HasDoubleDollar(s) ==> |Collapsed(s)| < |s|
    decreases |s|
  {
    if s != [] {
      if s[0] == '$' && |s| > 1 && s[1] == '$' {
        CollapsedLength(s[2..]);
      } else {
        CollapsedLength(s[1..]);
        if i: nat :| i < |s| && DollarPairAt(s, i) {
          assert DollarPairAt(s[1..], i - 1);
        }
      }
    }
  }

  /** The collapse is harmless exactly when there is nothing to collapse. */
  lemma {:induction false} CollapsedIffNoDoubleDollar(s: string)
    ensures Collapsed(s) == s <==> !HasDoubleDollar(s)
    decreases |s|
  {
    CollapsedLength(s);
    if !HasDoubleDollar(s) && s != [] {
      assert !DollarPairAt(s, 0);
      if i: nat :| i < |s[1..]| && DollarPairAt(s[1..], i) {
        assert DollarPairAt(s, i + 1);
      }
      CollapsedIffNoDoubleDollar(s[1..]);
      assert s == [s[0]] + s[1..];
    }
  }

  lemma EnvCharStep(c: char, rest: string, st: Splitter)
    requires st.quoted && rest != [] && (c == '$' ==> rest[0] != '$')
    ensures WordsFrom(EnvChar(c) + rest, st) == WordsFrom(rest, st.Push(c))
  {
  }

  lemma EnvDollarPair(tail: string)
    ensures FlatMap("$$" + tail, EnvChar) == "$$" + FlatMap(tail, EnvChar)
  {
  }

  lemma {:induction false} EnvBody(raw: string, rest: string, st: Splitter)
    requires st.quoted && st.inWord && rest != [] && rest[0] != '$'
    ensures WordsFrom(FlatMap(raw, EnvChar) + rest, st) == WordsFrom(rest, st.PushAll(Collapsed(raw)))
    decreases |raw|
  {
    if raw == [] {
      assert FlatMap(raw, EnvChar) + rest == rest && st.word + [] == st.word;
    } else if raw[0] == '$' && |raw| > 1 && raw[1] == '$' {
      var tail := raw[2..];
      EnvDollarPair(tail);
      assert raw == "$$" + tail;
      ConcatAssoc("$$", FlatMap(tail, EnvChar), rest);
      EnvBody(tail, rest, st.Push('$'));
      ConcatAssoc(st.word, ['$'], Collapsed(tail));
    } else {
      var c, tail := raw[0], raw[1..];
      ConcatAssoc(EnvChar(c), FlatMap(tail, EnvChar), rest);
      EnvCharStep(c, FlatMap(tail, EnvChar) + rest, st);
      EnvBody(tail, rest, st.Push(c));
      ConcatAssoc(st.word, [c], Collapsed(tail));
    }
  }

  /** An assignment is one word: its text with adjacent dollar signs collapsed. */
  lemma WordsOfAssignment(key: string, value: string)
    ensures Words(EnvAssignment(key, value)) == [Collapsed(key + "=" + value)]
  {
    var raw := key + "=" + value;
    EnvEscapedIsOnePass(raw);
    var inside := Splitter([], [], true, true);
    assert EnvAssignment(key, value) == "\"" + (FlatMap(raw, EnvChar) + "\"");
    EnvBody(raw, "\"", inside);
    assert [] + Collapsed(raw) == Collapsed(raw);
    assert "\"" + [] == "\"";
  }

  lemma {:induction false} CollapsedAfterKey(key: string, value: string)
    requires forall i :: 0 <= i < |key| ==> key[i] != '$'
    ensures Collapsed(key + value) == key + Collapsed(value)
    decreases |key|
  {
    if key == [] {
      assert key + value == value && key + Collapsed(value) == Collapsed(value);
    } else {
      assert (key + value)[1..] == key[1..] + value;
      CollapsedAfterKey(key[1..], value);
      assert key == [key[0]] + key[1..];
    }
  }
}
