/**
 Masking behind the log writer (crates/shared/src/startup.rs, crates/shared/src/secret_masker.rs): every
 line is masked on its own, so which secrets can show in the log is a question of its own.
 */
module LogRedaction {
  import opened Text
  import opened Lines
  import opened SecretMasker
  import opened PatternRegistry
  import opened RedactingWriter

  // -------------------------------------------------------------- from bytes to text

  function Utf8Char(c: char): (b: Bytes)
    ensures |b| == Width(c)
  {
    var n := c as int;
    if n < 0x80 then [n]
    else if n < 0x800 then [0xC0 + n / 64, 0x80 + n % 64]
    else if n < 0x1_0000 then [0xE0 + n / 4096, 0x80 + n / 64 % 64, 0x80 + n % 64]
    else [0xF0 + n / 262144, 0x80 + n / 4096 % 64, 0x80 + n / 64 % 64, 0x80 + n % 64]
  }

  function Utf8(s: string): (b: Bytes)
    ensures |b| == ByteLen(s)
  {
    if s == [] then [] else Utf8Char(s[0]) + Utf8(s[1..])
  }

  lemma {:induction false} Utf8Append(a: string, b: string)
    ensures Utf8(a + b) == Utf8(a) + Utf8(b)
  {
    if a == [] {
      assert a + b == b;
    } else {
      assert (a + b)[1..] == a[1..] + b;
      Utf8Append(a[1..], b);
    }
  }

  /** What any UTF-8 decoding does to a line, well-formed or repaired: it stays a line. */
  ghost predicate KeepsLines(decode: Bytes -> string) {
    && (forall b :: IsLine(b, NEWLINE) ==> IsLine(decode(b), '\n'))
    && (forall b :: b != [] && NEWLINE !in b ==> decode(b) != [] && '\n' !in decode(b))
  }

  /** The writer's redactor: a line is decoded, masked and encoded. */
  ghost predicate Redacts(redact: Bytes -> Bytes, decode: Bytes -> string, mask: string -> string) {
    forall b :: redact(b) == Utf8(mask(decode(b)))
  }

  /** The text of a byte stream, read line by line. */
  function LogText(stream: Bytes, decode: Bytes -> string): string {
    ByLine(stream, NEWLINE, decode)
  }

  /** Redacting the lines of the bytes is masking the lines of the text. */
  lemma {:induction false} RedactedLinesAreMasked(
    stream: Bytes, redact: Bytes -> Bytes, decode: Bytes -> string, mask: string -> string)
    requires KeepsLines(decode) && Redacts(redact, decode, mask)
    ensures ByLine(stream, NEWLINE, redact) == Utf8(ByLine(LogText(stream, decode), '\n', mask))
    decreases |stream|
  {
    if NEWLINE in stream {
      var line, rest := TakeLine(stream, NEWLINE);
      RedactedLinesAreMasked(rest, redact, decode, mask);
      ByLineFirst(line, rest, NEWLINE, redact);
      ByLineFirst(line, rest, NEWLINE, decode);
      ByLineFirst(decode(line), LogText(rest, decode), '\n', mask);
      Utf8Append(mask(decode(line)), ByLine(LogText(rest, decode), '\n', mask));
    } else {
      ByLineUnfinished(stream, NEWLINE, redact);
      ByLineUnfinished(stream, NEWLINE, decode);
      ByLineUnfinished(LogText(stream, decode), '\n', mask);
    }
  }

  lemma {:induction false} NewlinesInUtf8(s: string)
    ensures NEWLINE in Utf8(s) <==> '\n' in s
  {
    if s != [] {
      NewlinesInUtf8(s[1..]);
      assert NEWLINE in Utf8Char(s[0]) <==> s[0] == '\n';
    }
  }

  lemma Utf8OfLine(line: string)
    requires IsLine(line, '\n')
    ensures IsLine(Utf8(line), NEWLINE)
  {
    var n := |line| - 1;
    var front := line[..n];
    assert line == front + "\n";
    Utf8Append(front, "\n");
    assert Utf8("\n") == [NEWLINE];
    NewlinesInUtf8(front);
    assert Utf8(line)[..|Utf8(line)| - 1] == Utf8(front);
  }

  /** The lines of encoded text are the encoded lines: a decoding that undoes UTF-8 gives the text back. */
  lemma {:induction false} TextOfUtf8(text: string, decode: Bytes -> string)
    requires forall s :: decode(Utf8(s)) == s
    ensures LogText(Utf8(text), decode) == text
    decreases |text|
  {
    if '\n' in text {
      var line, rest := TakeLine(text, '\n');
      Utf8Append(line, rest);
      Utf8OfLine(line);
      ByLineFirst(Utf8(line), Utf8(rest), NEWLINE, decode);
      TextOfUtf8(rest, decode);
    } else {
      NewlinesInUtf8(text);
      ByLineUnfinished(Utf8(text), NEWLINE, decode);
    }
  }

  /** A log as it reads after masking every line on its own. */
  ghost function LogMasked(s: string, patterns: set<string>): string {
    ByLine(s, '\n', line => Masked(line, patterns))
  }

  /** However the bytes reach the writer, what it has written after a flush is the log, masked line by line. */
  method WriteMaskedLog(
    chunks: seq<Bytes>, redact: Bytes -> Bytes, ghost decode: Bytes -> string, ghost patterns: set<string>)
    returns (output: Bytes)
    requires KeepsLines(decode) && Redacts(redact, decode, line => Masked(line, patterns))
    ensures output == Utf8(LogMasked(LogText(Concat(chunks), decode), patterns))
  {
    output := WriteAllAndFlush(chunks, redact);
    RedactedLinesAreMasked(Concat(chunks), redact, decode, line => Masked(line, patterns));
  }

  // ---------------------------------------------------------- the log, position by position

  /** An occurrence of a pattern that lies on one line, whose newline it may end in. */
  predicate LineMatch(s: string, patterns: set<string>, x: Span) {
    x.start < x.end && IsMatch(s, patterns, x) && '\n' !in s[x.start..x.end - 1]
  }

  ghost predicate LineCovered(s: string, patterns: set<string>, k: nat) {
    exists x: Span :: LineMatch(s, patterns, x) && x.start <= k < x.end
  }

  ghost function LineCover(s: string, patterns: set<string>): set<nat> {
    set k: nat | k < |s| && LineCovered(s, patterns, k)
  }

  predicate StartsLine(s: string, k: nat) {
    0 < k < |s| && s[k - 1] == '\n'
  }

  function LineStarts(s: string): set<nat> {
    set k: nat | k < |s| && StartsLine(s, k)
  }

  lemma MatchOnFirstLine(line: string, rest: string, patterns: set<string>, x: Span)
    requires IsLine(line, '\n') && x.start < x.end <= |line|
    ensures LineMatch(line + rest, patterns, x) <==> IsMatch(line, patterns, x)
  {
    var s, last := line + rest, x.end - 1;
    assert s[x.start..x.end] == line[x.start..x.end];
    assert s[x.start..last] == line[..|line| - 1][x.start..last];
  }

  lemma MatchPastFirstLine(line: string, rest: string, patterns: set<string>, x: Span)
    ensures LineMatch(line + rest, patterns, Span(|line| + x.start, |line| + x.end)) <==> LineMatch(rest, patterns, x)
  {
    var s, n := line + rest, |line|;
    if x.start < x.end <= |rest| {
      assert s[n + x.start..n + x.end] == rest[x.start..x.end];
      assert s[n + x.start..n + x.end - 1] == rest[x.start..x.end - 1];
    }
  }

  lemma MatchKeepsToItsLine(line: string, rest: string, patterns: set<string>, x: Span)
    requires IsLine(line, '\n') && LineMatch(line + rest, patterns, x)
    ensures x.end <= |line| || |line| <= x.start
  {
    assert (line + rest)[|line| - 1] == '\n';
  }

  lemma CoverOnFirstLine(line: string, rest: string, patterns: set<string>, k: nat)
    requires IsLine(line, '\n') && k < |line|
    ensures LineCovered(line + rest, patterns, k) <==> Covered(line, patterns, k)
  {
    if LineCovered(line + rest, patterns, k) {
      var x: Span :| LineMatch(line + rest, patterns, x) && x.start <= k < x.end;
      MatchKeepsToItsLine(line, rest, patterns, x);
      MatchOnFirstLine(line, rest, patterns, x);
    }
    if Covered(line, patterns, k) {
      var x: Span :| IsMatch(line, patterns, x) && x.start <= k < x.end;
      MatchOnFirstLine(line, rest, patterns, x);
    }
  }

  lemma CoverPastFirstLine(line: string, rest: string, patterns: set<string>, k: nat)
    requires IsLine(line, '\n')
    ensures LineCovered(line + rest, patterns, |line| + k) <==> LineCovered(rest, patterns, k)
  {
    var n := |line|;
    if LineCovered(line + rest, patterns, n + k) {
      var x: Span :| LineMatch(line + rest, patterns, x) && x.start <= n + k < x.end;
      MatchKeepsToItsLine(line, rest, patterns, x);
      MatchPastFirstLine(line, rest, patterns, Span(x.start - n, x.end - n));
    }
    if LineCovered(rest, patterns, k) {
      var x: Span :| LineMatch(rest, patterns, x) && x.start <= k < x.end;
      MatchPastFirstLine(line, rest, patterns, x);
    }
  }

  lemma CoverWithoutNewline(s: string, patterns: set<string>)
    requires '\n' !in s
    ensures LineCover(s, patterns) == CoveredPositions(s, patterns) && LineStarts(s) == {}
  {
    forall k: nat ensures LineCovered(s, patterns, k) <==> Covered(s, patterns, k) {
      if Covered(s, patterns, k) {
        var x: Span :| IsMatch(s, patterns, x) && x.start <= k < x.end;
        assert LineMatch(s, patterns, x);
      }
    }
  }

  /** Where the covers agree, a text shows what its first part shows. */
  lemma {:induction false} ShownFirst(a: string, b: string, covered: set<nat>, starts: set<nat>, cover: set<nat>,
                                      k: nat)
    requires k <= |a| && forall i :: 0 <= i < k ==> (i in covered <==> i in cover) && i !in starts
    ensures ShownBy(a + b, covered, starts, k) == Shown(a, cover, k)
    decreases k
  {
    if k > 0 {
      ShownFirst(a, b, covered, starts, cover, k - 1);
      assert Showing(a + b, covered, starts, k - 1) == Showing(a, cover, {}, k - 1);
    }
  }

  /** From position `n` on, a cover and its starts are those of a text of their own. */
  ghost predicate StartsAnew(n: nat, m: nat, covered: set<nat>, starts: set<nat>, cover: set<nat>, later: set<nat>) {
    forall i :: n <= i < n + m ==> (i in covered <==> i - n in cover) && (i in starts <==> i == n || i - n in later)
  }

  lemma ShowingSecond(a: string, b: string, covered: set<nat>, starts: set<nat>, cover: set<nat>, later: set<nat>,
                      k: nat)
    requires k < |b| && StartsAnew(|a|, |b|, covered, starts, cover, later)
    ensures Showing(a + b, covered, starts, |a| + k) == Showing(b, cover, later, k)
  {
    var i := |a| + k;
    assert (i in covered <==> k in cover) && (i in starts <==> k == 0 || k in later);
    assert k > 0 ==> (i - 1 in covered <==> k - 1 in cover);
  }

  lemma ShownNext(s: string, covered: set<nat>, starts: set<nat>, i: nat, before: string, shown: string)
    requires i < |s| && ShownBy(s, covered, starts, i) == before + shown
    ensures ShownBy(s, covered, starts, i + 1) == before + (shown + Showing(s, covered, starts, i))
  {
    ConcatAssoc(before, shown, Showing(s, covered, starts, i));
  }

  lemma {:induction false} ShownSecond(a: string, b: string, covered: set<nat>, starts: set<nat>, cover: set<nat>,
                                       later: set<nat>, k: nat)
    requires k <= |b| && StartsAnew(|a|, |b|, covered, starts, cover, later)
    ensures ShownBy(a + b, covered, starts, |a| + k)
         == ShownBy(a + b, covered, starts, |a|) + ShownBy(b, cover, later, k)
    decreases k
  {
    if k > 0 {
      ShownSecond(a, b, covered, starts, cover, later, k - 1);
      ShowingSecond(a, b, covered, starts, cover, later, k - 1);
      ShownNext(a + b, covered, starts, |a| + k - 1, ShownBy(a + b, covered, starts, |a|),
                ShownBy(b, cover, later, k - 1));
    }
  }

  lemma FirstLineAgrees(line: string, rest: string, patterns: set<string>, i: nat)
    requires IsLine(line, '\n') && i < |line|
    ensures i in LineCover(line + rest, patterns) <==> i in CoveredPositions(line, patterns)
    ensures i !in LineStarts(line + rest)
  {
    CoverOnFirstLine(line, rest, patterns, i);
    if i > 0 {
      assert (line + rest)[i - 1] == line[..|line| - 1][i - 1];
    }
  }

  lemma RestAgrees(line: string, rest: string, patterns: set<string>, i: nat)
    requires IsLine(line, '\n') && i < |rest|
    ensures |line| + i in LineCover(line + rest, patterns) <==> i in LineCover(rest, patterns)
    ensures |line| + i in LineStarts(line + rest) <==> i == 0 || i in LineStarts(rest)
  {
    CoverPastFirstLine(line, rest, patterns, i);
    assert (line + rest)[|line| + i - 1] == if i == 0 then '\n' else rest[i - 1];
  }

  lemma ShownOnFirstLine(line: string, rest: string, patterns: set<string>)
    requires IsLine(line, '\n')
    ensures var s := line + rest;
            ShownBy(s, LineCover(s, patterns), LineStarts(s), |line|) == Masked(line, patterns)
  {
    var covered, starts := LineCover(line + rest, patterns), LineStarts(line + rest);
    forall i | 0 <= i < |line|
      ensures (i in covered <==> i in CoveredPositions(line, patterns)) && i !in starts
    {
      FirstLineAgrees(line, rest, patterns, i);
    }
    ShownFirst(line, rest, covered, starts, CoveredPositions(line, patterns), |line|);
  }

  lemma RestStartsAnew(line: string, rest: string, patterns: set<string>)
    requires IsLine(line, '\n')
    ensures var s := line + rest;
            StartsAnew(|line|, |rest|, LineCover(s, patterns), LineStarts(s),
                       LineCover(rest, patterns), LineStarts(rest))
  {
    var s, n := line + rest, |line|;
    forall i | n <= i < n + |rest|
      ensures i in LineCover(s, patterns) <==> i - n in LineCover(rest, patterns)
      ensures i in LineStarts(s) <==> i == n || i - n in LineStarts(rest)
    {
      RestAgrees(line, rest, patterns, i - n);
    }
  }

  /** A text that starts with a line shows that line masked, and then the rest. */
  lemma ShownLine(line: string, rest: string, patterns: set<string>)
    requires IsLine(line, '\n')
    ensures var s := line + rest;
            ShownBy(s, LineCover(s, patterns), LineStarts(s), |s|)
            == Masked(line, patterns) + ShownBy(rest, LineCover(rest, patterns), LineStarts(rest), |rest|)
  {
    var s := line + rest;
    RestStartsAnew(line, rest, patterns);
    ShownOnFirstLine(line, rest, patterns);
    ShownSecond(line, rest, LineCover(s, patterns), LineStarts(s), LineCover(rest, patterns), LineStarts(rest), |rest|);
  }

  /** The masked log, position by position: what an occurrence on its own line covers is masked, anew on every
      line. */
  lemma {:induction false} LogByPosition(s: string, patterns: set<string>)
    ensures LogMasked(s, patterns) == ShownBy(s, LineCover(s, patterns), LineStarts(s), |s|)
    decreases |s|
  {
    if '\n' in s {
      var line, rest := TakeLine(s, '\n');
      LogByPosition(rest, patterns);
      ByLineFirst(line, rest, '\n', line => Masked(line, patterns));
      ShownLine(line, rest, patterns);
    } else {
      ByLineUnfinished(s, '\n', line => Masked(line, patterns));
      CoverWithoutNewline(s, patterns);
    }
  }

  // -------------------------------------------------------------- what never shows in the log

  /** Some pattern occurs on one line of `p`. */
  ghost predicate OnOneLine(p: string, patterns: set<string>) {
    exists x: Span :: LineMatch(p, patterns, x)
  }

  /** Whatever is logged and whatever else is registered, the log does not show `p`. */
  ghost predicate NeverInLog(p: string, patterns: set<string>) {
    forall s: string, others: set<string> {:trigger LogMasked(s, others + patterns)} ::
      !Contains(LogMasked(s, others + patterns), p)
  }

  lemma SliceOfSlice(s: string, j: nat, n: nat, lo: nat, hi: nat)
    requires j + n <= |s| && lo <= hi <= n
    ensures s[j..j + n][lo..hi] == s[j + lo..j + hi]
  {
    var part := s[j..j + n];
    assert forall k :: 0 <= k < n ==> part[k] == s[j + k];
  }

  lemma MatchIsCovered(s: string, p: string, patterns: set<string>, others: set<string>, j: nat, x: Span)
    requires OccursAt(s, p, j) && LineMatch(p, patterns, x)
    ensures j + x.start in LineCover(s, others + patterns)
  {
    var y := Span(j + x.start, j + x.end);
    SliceOfSlice(s, j, |p|, x.start, x.end);
    SliceOfSlice(s, j, |p|, x.start, x.end - 1);
    assert LineMatch(s, others + patterns, y);
  }

  lemma OnOneLineNeverShows(p: string, patterns: set<string>, others: set<string>, s: string)
    requires StarSafe(p) && OnOneLine(p, patterns)
    ensures !Contains(LogMasked(s, others + patterns), p)
  {
    var all := others + patterns;
    var x: Span :| LineMatch(p, patterns, x);
    LogByPosition(s, all);
    if i: nat :| i <= |LogMasked(s, all)| && OccursAt(LogMasked(s, all), p, i) {
      var j := PieceIsInput(s, LineCover(s, all), LineStarts(s), |s|, p, i);
      MatchIsCovered(s, p, patterns, others, j, x);
    }
  }

  lemma {:induction false} ShownUncovered(s: string, starts: set<nat>, k: nat)
    requires k <= |s|
    ensures ShownBy(s, {}, starts, k) == s[..k]
    decreases k
  {
    if k > 0 {
      ShownUncovered(s, starts, k - 1);
      assert s[..k] == s[..k - 1] + [s[k - 1]];
    }
  }

  /** With no pattern on any one line, a text is logged as it is. */
  lemma LoggedAsItIs(p: string, patterns: set<string>)
    requires !OnOneLine(p, patterns)
    ensures LogMasked(p, patterns) == p
  {
    LogByPosition(p, patterns);
    assert LineCover(p, patterns) == {};
    ShownUncovered(p, LineStarts(p), |p|);
  }

  /** A text that the mask cannot complete never shows in the log exactly when a pattern occurs on one of its lines. */
  lemma NeverInLogIff(p: string, patterns: set<string>)
    requires StarSafe(p)
    ensures NeverInLog(p, patterns) <==> OnOneLine(p, patterns)
  {
    if OnOneLine(p, patterns) {
      forall s: string, others: set<string> ensures !Contains(LogMasked(s, others + patterns), p) {
        OnOneLineNeverShows(p, patterns, others, s);
      }
    } else {
      LoggedAsItIs(p, patterns);
      assert {} + patterns == patterns;
      assert OccursAt(p, p, 0);
      assert Contains(LogMasked(p, {} + patterns), p);
    }
  }

  // ------------------------------------------------------------------ registered secrets

  predicate IsBlank(s: string) {
    forall c :: c in s ==> IsWhitespace(c)
  }

  /** Trimming keeps a part that leaves out only whitespace. */
  lemma {:induction false} TrimStartIsPart(s: string) returns (lo: nat)
    ensures lo <= |s| && TrimStart(s) == s[lo..] && IsBlank(s[..lo])
    ensures TrimStart(s) != [] ==> !IsWhitespace(TrimStart(s)[0])
  {
    lo := 0;
    if s != [] && IsWhitespace(s[0]) {
      lo := TrimStartIsPart(s[1..]);
      assert s[..lo + 1] == [s[0]] + s[1..][..lo];
      lo := lo + 1;
    }
  }

  lemma {:induction false} TrimEndIsPart(s: string) returns (hi: nat)
    ensures hi <= |s| && TrimEnd(s) == s[..hi] && IsBlank(s[hi..])
    ensures TrimEnd(s) != [] ==> !IsWhitespace(TrimEnd(s)[|TrimEnd(s)| - 1])
  {
    hi := |s|;
    if s != [] && IsWhitespace(s[|s| - 1]) {
      hi := TrimEndIsPart(s[..|s| - 1]);
      assert s[hi..] == s[..|s| - 1][hi..] + [s[|s| - 1]];
    }
  }

  lemma TrimIsPart(s: string) returns (lo: nat, hi: nat)
    ensures lo <= hi <= |s| && Trim(s) == s[lo..hi]
    ensures Trim(s) == [] ==> IsBlank(s)
    ensures Trim(s) != [] ==> !IsWhitespace(Trim(s)[|Trim(s)| - 1])
  {
    lo := TrimStartIsPart(s);
    var n := TrimEndIsPart(s[lo..]);
    hi := lo + n;
    assert s == s[..lo] + s[lo..];
    assert s[lo..][n..] == s[lo..] || n > 0;
  }

  lemma BlankTrims(s: string)
    requires Trim(s) == []
    ensures IsBlank(s)
  {
    var _, _ := TrimIsPart(s);
  }

  /** Every piece of a split occurs in the text, the first one at its start, and holds no separator. */
  lemma {:induction false} PieceOccurs(s: string, seps: set<char>, i: nat) returns (j: nat)
    requires i < |Split(s, seps)|
    ensures OccursAt(s, Split(s, seps)[i], j) && (i == 0 ==> j == 0)
    ensures forall c :: c in Split(s, seps)[i] ==> c !in seps
  {
    j := 0;
    if s != [] {
      var rest, rests := s[1..], Split(s[1..], seps);
      assert s == [s[0]] + rest;
      if s[0] !in seps && i == 0 {
        j := PieceOccurs(rest, seps, i);
        OccursLonger(s[0], rest, rests[0]);
      } else if i > 0 {
        var i' := if s[0] in seps then i - 1 else i;
        j := PieceOccurs(rest, seps, i');
        OccursAtShift([s[0]], rest, rests[i'], j);
        j := j + 1;
      }
    }
  }

  lemma OccursLonger(c: char, s: string, p: string)
    requires OccursAt(s, p, 0)
    ensures OccursAt([c] + s, [c] + p, 0)
  {
    assert ([c] + s)[..1 + |p|] == [c] + s[..|p|];
  }

  /** A registered trimmed line is a pattern on one line. */
  lemma LineIsOnOneLine(v: string, i: nat, patterns: set<string>)
    requires i < |LinesOf(v)| && Trim(LinesOf(v)[i]) != [] && Trim(LinesOf(v)[i]) in patterns
    ensures OnOneLine(v, patterns)
  {
    var line := LinesOf(v)[i];
    var j := PieceOccurs(v, {'\n', '\r'}, i);
    var lo, hi := TrimIsPart(line);
    SliceOfSlice(v, j, |line|, lo, hi);
    SliceOfSlice(v, j, |line|, lo, hi - 1);
    assert '\n' !in line;
    assert LineMatch(v, patterns, Span(j + lo, j + hi));
  }

  /** Some trimmed line is long enough to be registered on its own. */
  ghost predicate HasLongLine(v: string, min: nat) {
    exists i :: 0 <= i < |LinesOf(v)| && ByteLen(Trim(LinesOf(v)[i])) >= min
  }

  lemma {:induction false} NoLinePatterns(lines: seq<string>, min: nat, encode: string -> seq<string>)
    requires forall i :: 0 <= i < |lines| ==> ByteLen(Trim(lines[i])) < min
    ensures LinePatterns(lines, min, encode) == {}
  {
    if lines != [] {
      NoLinePatterns(lines[..|lines| - 1], min, encode);
    }
  }

  lemma LongLineIsOnOneLine(v: string, min: nat, encode: string -> seq<string>, patterns: set<string>)
    requires HasLongLine(v, min) && min > 0 && LinePatterns(LinesOf(v), min, encode) <= patterns
    ensures OnOneLine(v, patterns)
  {
    var i :| 0 <= i < |LinesOf(v)| && ByteLen(Trim(LinesOf(v)[i])) >= min;
    LineIsRegistered(LinesOf(v), min, encode, i);
    LineIsOnOneLine(v, i, patterns);
  }

  lemma MorePatterns(v: string, some: set<string>, more: set<string>)
    requires OnOneLine(v, some) && some <= more
    ensures OnOneLine(v, more)
  {
    var x: Span :| LineMatch(v, some, x);
    assert LineMatch(v, more, x);
  }

  lemma WholeIsOnOneLine(v: string, patterns: set<string>)
    requires v != [] && '\n' !in v && v in patterns
    ensures OnOneLine(v, patterns)
  {
    assert v[0..|v|] == v;
    assert LineMatch(v, patterns, Span(0, |v|));
  }

  /** A text that ends in no newline and matches as a whole on one line has none. */
  lemma WholeMatch(v: string, patterns: set<string>, x: Span)
    requires LineMatch(v, patterns, x) && v[x.start..x.end] == v && v[|v| - 1] != '\n'
    ensures '\n' !in v
  {
    assert |v[x.start..x.end]| == x.end - x.start;
    assert v == v[0..|v| - 1] + [v[|v| - 1]];
  }

  /** Without a long line, what matches on one line of a secret is the whole of it or an encoding. */
  lemma MatchOfPattern(v: string, encode: string -> seq<string>, x: Span)
    requires v != [] && v[|v| - 1] != '\n' && LineMatch(v, PatternsOf(v, encode), x)
    ensures '\n' !in v || OnOneLine(v, LongEnough(encode(v)))
  {
    var q := v[x.start..x.end];
    if q in LongEnough(encode(v)) {
      assert LineMatch(v, LongEnough(encode(v)), x);
    } else if q == v {
      WholeMatch(v, PatternsOf(v, encode), x);
    } else if '\n' in v {
      JsonEscapedGrows(v);
    }
  }

  /** What of the registered value decides: it is one line, it has a line registered on its own, or one of its
      encodings occurs on a line of its own. */
  ghost predicate SecretIsSafe(v: string, encode: string -> seq<string>) {
    '\n' !in v || HasLongLine(v, 4) || OnOneLine(v, LongEnough(encode(v)))
  }

  lemma SafeIsOnOneLine(v: string, encode: string -> seq<string>, all: set<string>)
    requires v != [] && SecretIsSafe(v, encode)
    requires PatternsOf(v, encode) + LinePatterns(LinesOf(v), MIN_SECRET_LEN, encode) <= all
    ensures OnOneLine(v, all)
  {
    if HasLongLine(v, MIN_SECRET_LEN) {
      LongLineIsOnOneLine(v, MIN_SECRET_LEN, encode, all);
    } else if '\n' in v {
      MorePatterns(v, LongEnough(encode(v)), all);
    } else {
      WholeIsOnOneLine(v, all);
    }
  }

  lemma OnOneLineIsSafe(v: string, encode: string -> seq<string>)
    requires v != [] && v[|v| - 1] != '\n'
    requires OnOneLine(v, PatternsOf(v, encode) + LinePatterns(LinesOf(v), MIN_SECRET_LEN, encode))
    ensures SecretIsSafe(v, encode)
  {
    if !HasLongLine(v, MIN_SECRET_LEN) {
      var lines := LinePatterns(LinesOf(v), MIN_SECRET_LEN, encode);
      NoLinePatterns(LinesOf(v), MIN_SECRET_LEN, encode);
      assert PatternsOf(v, encode) + lines == PatternsOf(v, encode);
      var x: Span :| LineMatch(v, PatternsOf(v, encode), x);
      MatchOfPattern(v, encode, x);
    }
  }

  lemma TrimmedEnd(s: string)
    ensures Trim(s) != [] ==> Trim(s)[|Trim(s)| - 1] != '\n'
  {
    var _, _ := TrimIsPart(s);
  }

  lemma SecretOnOneLineIff(value: string, encode: string -> seq<string>)
    requires ByteLen(Trim(value)) >= MIN_SECRET_LEN
    ensures OnOneLine(Trim(value), SecretPatterns(value, encode)) <==> SecretIsSafe(Trim(value), encode)
  {
    var v, all := Trim(value), SecretPatterns(value, encode);
    TrimmedEnd(value);
    if SecretIsSafe(v, encode) {
      SafeIsOnOneLine(v, encode, all);
    }
    if OnOneLine(v, all) {
      OnOneLineIsSafe(v, encode);
    }
  }

  /** A secret the mask cannot complete never shows in the log exactly when it is long enough to be registered
      and one line of it is enough to recognise it. */
  lemma SecretNeverInLogIff(value: string, encode: string -> seq<string>)
    requires StarSafe(Trim(value))
    ensures NeverInLog(Trim(value), SecretPatterns(value, encode))
       <==> ByteLen(Trim(value)) >= 4 && SecretIsSafe(Trim(value), encode)
  {
    NeverInLogIff(Trim(value), SecretPatterns(value, encode));
    if ByteLen(Trim(value)) >= MIN_SECRET_LEN {
      SecretOnOneLineIff(value, encode);
    }
  }

  /** Encodings longer than the value itself do not help: a registered secret of several lines is safe exactly when
      one of them is long enough. */
  lemma LinesDecide(value: string, encode: string -> seq<string>)
    requires StarSafe(Trim(value)) && ByteLen(Trim(value)) >= 4 && '\n' in Trim(value)
    requires forall e :: e in LongEnough(encode(Trim(value))) ==> |e| > |Trim(value)|
    ensures NeverInLog(Trim(value), SecretPatterns(value, encode)) <==> HasLongLine(Trim(value), 4)
  {
    var v := Trim(value);
    SecretNeverInLogIff(value, encode);
    forall x: Span ensures !LineMatch(v, LongEnough(encode(v)), x) {
    }
  }

  // ------------------------------------------------------------------------- workflow masks

  lemma {:induction false} CharInPiece(s: string, seps: set<char>, c: char) returns (i: nat)
    requires c in s && c !in seps
    ensures i < |Split(s, seps)| && c in Split(s, seps)[i]
  {
    i := 0;
    if s[0] != c {
      i := CharInPiece(s[1..], seps, c);
      if s[0] in seps {
        i := i + 1;
      }
    }
  }

  lemma NonblankLine(v: string)
    requires Trim(v) != []
    ensures HasLongLine(v, 1)
  {
    var lo, hi := TrimIsPart(v);
    var c := Trim(v)[|Trim(v)| - 1];
    assert v[hi - 1] == c;
    var i := CharInPiece(v, {'\n', '\r'}, c);
    if Trim(LinesOf(v)[i]) == [] {
      BlankTrims(LinesOf(v)[i]);
    }
    assert ByteLen(Trim(LinesOf(v)[i])) >= 1;
  }

  /** A mask the mask text cannot complete never shows in the log, however many lines it has and however short
      they are. */
  lemma MaskNeverInLog(value: string, encode: string -> seq<string>)
    requires Trim(value) != [] && StarSafe(value)
    ensures NeverInLog(value, MaskPatterns(value, encode))
  {
    NonblankLine(value);
    LongLineIsOnOneLine(value, 1, encode, MaskPatterns(value, encode));
    NeverInLogIff(value, MaskPatterns(value, encode));
  }

  // ------------------------------------------------------------------------------ an input

  const SHORT_LINES: string := "ab\ncd"

  lemma ShortLines()
    ensures LinesOf(SHORT_LINES) == ["ab", "cd"]
  {
    SplitWhole("cd", {'\n', '\r'});
    SplitFirst("ab", "\n", "cd", {'\n', '\r'});
    assert "ab" + ("\n" + "cd") == SHORT_LINES;
  }

  lemma StarlessIsSafe(s: string)
    requires s != [] && '*' !in s
    ensures StarSafe(s)
  {
    forall i: nat ensures !OccursAt(s, MASK, i) {
      if i + 3 <= |s| {
        assert s[i..i + 3][0] == s[i];
      }
    }
  }

  lemma AreRegistered()
    ensures Trim(SHORT_LINES) == SHORT_LINES && ByteLen(SHORT_LINES) == 5
    ensures StarSafe(SHORT_LINES) && '\n' in SHORT_LINES
  {
    StarlessIsSafe(SHORT_LINES);
    assert SHORT_LINES[2] == '\n';
  }

  lemma AreShort()
    ensures !HasLongLine(SHORT_LINES, MIN_SECRET_LEN)
  {
    ShortLines();
    assert ByteLen(Trim("ab")) == 2 && ByteLen(Trim("cd")) == 2;
  }

  /** Five bytes on two short lines are registered, and written to the log all the same. */
  lemma ShortLinesShow(encode: string -> seq<string>)
    requires forall e :: e in LongEnough(encode(SHORT_LINES)) ==> |e| > 5
    ensures SHORT_LINES in SecretPatterns(SHORT_LINES, encode)
    ensures !NeverInLog(SHORT_LINES, SecretPatterns(SHORT_LINES, encode))
  {
    AreShort();
    AreRegistered();
    LinesDecide(SHORT_LINES, encode);
  }
}
