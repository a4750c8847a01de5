/**
 Secret masking (crates/shared/src/secret_masker.rs): the sort-and-merge pass over overlapping
 matches, the replace fallback, and the pattern registry.
 */
module SecretMasker {
  import opened Text

  const MIN_SECRET_LEN: nat := 4
  const MASK: string := "***"

  datatype Span = Span(start: nat, end: nat)

  // ------------------------------------------------------- the reference definition

  /** The text under `x` is one of the patterns. */
  predicate IsMatch(s: string, patterns: set<string>, x: Span) {
    x.start <= x.end <= |s| && s[x.start..x.end] in patterns
  }

  /** Position k of `s` lies inside some occurrence of some pattern. */
  ghost predicate Covered(s: string, patterns: set<string>, k: nat) {
    exists x: Span :: IsMatch(s, patterns, x) && x.start <= k < x.end
  }

  ghost function CoveredPositions(s: string, patterns: set<string>): set<nat> {
    set k: nat | k < |s| && Covered(s, patterns, k)
  }

  /**
   The first `k` positions of `s`, read one by one: an uncovered position shows its character,
   the first position of a run of covered ones shows the mask, the others show nothing. A run ends
   before every position in `starts`.
   */
  ghost function ShownBy(s: string, covered: set<nat>, starts: set<nat>, k: nat): string
    requires k <= |s|
  {
    if k == 0 then []
    else ShownBy(s, covered, starts, k - 1) + Showing(s, covered, starts, k - 1)
  }

  ghost function Showing(s: string, covered: set<nat>, starts: set<nat>, k: nat): string
    requires k < |s|
  {
    if k !in covered then [s[k]]
    else if k >= 1 && k - 1 in covered && k !in starts then []
    else MASK
  }

  ghost function Shown(s: string, covered: set<nat>, k: nat): string
    requires k <= |s|
  {
    ShownBy(s, covered, {}, k)
  }

  /** What masking means: every position of the input, as the patterns cover them. */
  ghost function Masked(s: string, patterns: set<string>): string {
    Shown(s, CoveredPositions(s, patterns), |s|)
  }

  // ----------------------------------------------------------------- sorted spans

  predicate Before(a: Span, b: Span) {
    a.start < b.start || (a.start == b.start && a.end <= b.end)
  }

  predicate Sorted(spans: seq<Span>) {
    forall i, j :: 0 <= i < j < |spans| ==> Before(spans[i], spans[j])
  }

  function Insert(spans: seq<Span>, x: Span): (r: seq<Span>)
    requires Sorted(spans)
    ensures Sorted(r)
    ensures forall y :: y in r <==> y in spans || y == x
  {
    if spans == [] then [x]
    else if Before(x, spans[0]) then [x] + spans
    else
      assert forall y :: y in spans[1..] ==> Before(spans[0], y);
      [spans[0]] + Insert(spans[1..], x)
  }

  /** The order `sort_unstable` leaves the spans in. */
  function Sort(spans: seq<Span>): (r: seq<Span>)
    ensures Sorted(r)
    ensures forall y :: y in r <==> y in spans
  {
    if spans == [] then [] else Insert(Sort(spans[1..]), spans[0])
  }

  // ------------------------------------------------------------------------ merge

  ghost predicate InSpans(spans: seq<Span>, k: nat) {
    exists x :: x in spans && x.start <= k < x.end
  }

  predicate Nonempty(spans: seq<Span>, n: nat) {
    forall x :: x in spans ==> x.start < x.end <= n
  }

  /** Left to right, with at least one uncovered position between neighbours. */
  predicate Separated(spans: seq<Span>) {
    forall i, j :: 0 <= i < j < |spans| ==> spans[i].end < spans[j].start
  }

  ghost predicate SameCover(a: seq<Span>, b: seq<Span>) {
    forall k: nat :: InSpans(a, k) <==> InSpans(b, k)
  }

  lemma InSpansAppend(spans: seq<Span>, x: Span)
    ensures forall k: nat :: InSpans(spans + [x], k) <==> InSpans(spans, k) || x.start <= k < x.end
  {
  }

  function Widened(last: Span, x: Span): Span {
    Span(last.start, if x.end > last.end then x.end else last.end)
  }

  /** Widening the last span to take in one that starts inside or right after it. */
  lemma WidenLast(front: seq<Span>, last: Span, x: Span, n: nat)
    requires Separated(front + [last]) && Nonempty(front + [last], n)
    requires last.start <= x.start <= last.end && x.start < x.end <= n
    ensures Separated(front + [Widened(last, x)]) && Nonempty(front + [Widened(last, x)], n)
    ensures var wide := front + [Widened(last, x)];
            forall k: nat :: InSpans(wide, k) <==> InSpans(front + [last], k) || x.start <= k < x.end
  {
    assert last in front + [last];
    assert forall y :: y in front ==> y in front + [last];
    forall i | 0 <= i < |front| ensures front[i].end < last.start {
      assert (front + [last])[i] == front[i] && (front + [last])[|front|] == last;
    }
    assert Separated(front) by { assert forall i :: 0 <= i < |front| ==> front[i] == (front + [last])[i]; }
    InSpansAppend(front, last);
    InSpansAppend(front, Widened(last, x));
  }

  /** The merged form of the first `i` sorted spans. */
  ghost predicate Merged(merged: seq<Span>, spans: seq<Span>, i: nat, n: nat)
    requires i <= |spans|
  {
    && Separated(merged) && Nonempty(merged, n) && SameCover(merged, spans[..i])
    && (merged != [] ==> i > 0 && merged[|merged| - 1].start <= spans[i - 1].start)
  }

  lemma MergeWidens(merged: seq<Span>, spans: seq<Span>, i: nat, n: nat)
    requires Sorted(spans) && Nonempty(spans, n) && i < |spans| && Merged(merged, spans, i, n)
    requires merged != [] && spans[i].start <= merged[|merged| - 1].end
    ensures Merged(merged[..|merged| - 1] + [Widened(merged[|merged| - 1], spans[i])], spans, i + 1, n)
  {
    var front, last, x := merged[..|merged| - 1], merged[|merged| - 1], spans[i];
    assert merged == front + [last] && spans[..i + 1] == spans[..i] + [x];
    assert Before(spans[i - 1], x) && x in spans;
    WidenLast(front, last, x, n);
    InSpansAppend(spans[..i], x);
  }

  lemma MergePushes(merged: seq<Span>, spans: seq<Span>, i: nat, n: nat)
    requires Sorted(spans) && Nonempty(spans, n) && i < |spans| && Merged(merged, spans, i, n)
    requires merged != [] ==> spans[i].start > merged[|merged| - 1].end
    ensures Merged(merged + [spans[i]], spans, i + 1, n)
  {
    var x := spans[i];
    assert spans[..i + 1] == spans[..i] + [x] && x in spans;
    InSpansAppend(spans[..i], x);
    InSpansAppend(merged, x);
    forall k | 0 <= k < |merged| ensures merged[k].end < x.start {
      assert merged[|merged| - 1] in merged;
    }
  }

  method Merge(spans: seq<Span>, n: nat) returns (merged: seq<Span>)
    requires Sorted(spans) && Nonempty(spans, n)
    ensures Separated(merged) && Nonempty(merged, n) && SameCover(merged, spans)
  {
    merged := [];
    var i := 0;
    while i < |spans|
      invariant 0 <= i <= |spans| && Merged(merged, spans, i, n)
    {
      if merged != [] && spans[i].start <= merged[|merged| - 1].end {
        MergeWidens(merged, spans, i, n);
        merged := merged[..|merged| - 1] + [Widened(merged[|merged| - 1], spans[i])];
      } else {
        MergePushes(merged, spans, i, n);
        merged := merged + [spans[i]];
      }
      i := i + 1;
    }
    assert spans[..i] == spans;
  }

  // ----------------------------------------------------------------------- output

  lemma {:induction false} ShowGap(s: string, covered: set<nat>, lo: nat, hi: nat)
    requires lo <= hi <= |s|
    requires forall k :: lo <= k < hi ==> k !in covered
    ensures Shown(s, covered, hi) == Shown(s, covered, lo) + s[lo..hi]
    decreases hi
  {
    if lo < hi {
      ShowGap(s, covered, lo, hi - 1);
      assert s[lo..hi] == s[lo..hi - 1] + [s[hi - 1]];
    }
  }

  lemma {:induction false} ShowRun(s: string, covered: set<nat>, lo: nat, hi: nat)
    requires lo < hi <= |s|
    requires forall k :: lo <= k < hi ==> k in covered
    requires lo > 0 ==> lo - 1 !in covered
    ensures Shown(s, covered, hi) == Shown(s, covered, lo) + MASK
    decreases hi
  {
    if lo + 1 < hi {
      ShowRun(s, covered, lo, hi - 1);
    }
  }

  ghost function CoverOf(spans: seq<Span>, n: nat): set<nat> {
    set k: nat | k < n && InSpans(spans, k)
  }

  /** What lies just before, inside and between separated spans. */
  lemma SeparatedCover(spans: seq<Span>, n: nat, i: nat, cursor: nat)
    requires Separated(spans) && Nonempty(spans, n) && i <= |spans|
    requires cursor == if i == 0 then 0 else spans[i - 1].end
    ensures cursor <= n && (i < |spans| ==> cursor <= spans[i].start)
    ensures forall k: nat :: cursor <= k < (if i < |spans| then spans[i].start else n) ==> !InSpans(spans, k)
    ensures i < |spans| ==> forall k: nat :: spans[i].start <= k < spans[i].end ==> InSpans(spans, k)
  {
  }

  lemma ShowSpan(input: string, merged: seq<Span>, i: nat, cursor: nat)
    requires Separated(merged) && Nonempty(merged, |input|) && i < |merged|
    requires cursor == if i == 0 then 0 else merged[i - 1].end
    ensures cursor <= merged[i].start < merged[i].end <= |input|
    ensures var covered := CoverOf(merged, |input|);
            Shown(input, covered, merged[i].end)
                == Shown(input, covered, cursor) + input[cursor..merged[i].start] + MASK
  {
    var covered := CoverOf(merged, |input|);
    assert merged[i] in merged;
    SeparatedCover(merged, |input|, i, cursor);
    assert i > 0 ==> merged[i - 1].end < merged[i].start;
    ShowGap(input, covered, cursor, merged[i].start);
    ShowRun(input, covered, merged[i].start, merged[i].end);
  }

  /** The output pass: text up to each merged span, one mask, and the tail. */
  method WriteMasked(input: string, merged: seq<Span>) returns (result: string)
    requires Separated(merged) && Nonempty(merged, |input|)
    ensures result == Shown(input, CoverOf(merged, |input|), |input|)
  {
    ghost var covered := CoverOf(merged, |input|);
    result := [];
    var cursor, i := 0, 0;
    while i < |merged|
      invariant 0 <= i <= |merged| && 0 <= cursor <= |input|
      invariant cursor == if i == 0 then 0 else merged[i - 1].end
      invariant result == Shown(input, covered, cursor)
    {
      var span := merged[i];
      ShowSpan(input, merged, i, cursor);
      result := result + input[cursor..span.start] + MASK;
      cursor := span.end;
      i := i + 1;
    }
    SeparatedCover(merged, |input|, i, cursor);
    ShowGap(input, covered, cursor, |input|);
    result := result + input[cursor..];
  }

  /** The automaton reports every occurrence of every pattern and nothing else, in any order. */
  ghost predicate AllMatches(spans: seq<Span>, input: string, patterns: set<string>) {
    forall x: Span :: x in spans <==> IsMatch(input, patterns, x)
  }

  lemma MatchesCover(spans: seq<Span>, input: string, patterns: set<string>)
    requires AllMatches(spans, input, patterns) && [] !in patterns
    ensures Nonempty(spans, |input|)
    ensures CoverOf(spans, |input|) == CoveredPositions(input, patterns)
  {
    forall x | x in spans ensures x.start < x.end <= |input| {
      assert IsMatch(input, patterns, x);
      assert |input[x.start..x.end]| == x.end - x.start;
    }
    forall k: nat ensures InSpans(spans, k) <==> Covered(input, patterns, k) {
      if InSpans(spans, k) {
        var x :| x in spans && x.start <= k < x.end;
        assert IsMatch(input, patterns, x);
      }
      if Covered(input, patterns, k) {
        var x: Span :| IsMatch(input, patterns, x) && x.start <= k < x.end;
        assert x in spans;
      }
    }
  }

  /** The fast path computes the per-position definition, whatever order the matches come in. */
  method MaskWithAutomaton(input: string, spans: seq<Span>, ghost patterns: set<string>) returns (result: string)
    requires AllMatches(spans, input, patterns) && [] !in patterns
    ensures result == Masked(input, patterns)
  {
    MatchesCover(spans, input, patterns);
    if spans == [] {
      ShowGap(input, CoverOf(spans, |input|), 0, |input|);
      assert input[0..|input|] == input;
      return input;
    }
    var sorted := Sort(spans);
    assert forall k: nat :: InSpans(sorted, k) <==> InSpans(spans, k);
    var merged := Merge(sorted, |input|);
    result := WriteMasked(input, merged);
    assert CoverOf(merged, |input|) == CoverOf(spans, |input|);
  }

  // ------------------------------------------------------------- nothing survives

  /** No `***` inside, and no star at either end: what a mask can neither contain nor complete. */
  ghost predicate StarSafe(p: string) {
    p != [] && p[0] != '*' && p[|p| - 1] != '*' && NoMaskIn(p)
  }

  ghost predicate NoMaskIn(w: string) {
    forall i: nat :: !OccursAt(w, MASK, i)
  }

  lemma OccursInPart(w: string, i: nat, j: nat, p: string, k: nat)
    requires i <= j <= |w| && OccursAt(w[i..j], p, k)
    ensures OccursAt(w, p, i + k)
  {
    forall x | 0 <= x < |p| ensures w[i + k + x] == p[x] {
      assert w[i..j][k..k + |p|][x] == w[i..j][k + x];
    }
    assert w[i + k..i + k + |p|] == p;
  }

  lemma NoMaskInPart(w: string, i: nat, j: nat)
    requires NoMaskIn(w) && i <= j <= |w|
    ensures NoMaskIn(w[i..j])
  {
    forall k: nat ensures !OccursAt(w[i..j], MASK, k) {
      if OccursAt(w[i..j], MASK, k) {
        OccursInPart(w, i, j, MASK, k);
      }
    }
  }

  /** After a covered position the output so far ends in a whole mask. */
  lemma {:induction false} CoveredEndsInMask(s: string, covered: set<nat>, starts: set<nat>, k: nat)
    requires 0 < k <= |s| && k - 1 in covered
    ensures var o := ShownBy(s, covered, starts, k); |o| >= 3 && o[|o| - 3..] == MASK
  {
    if k >= 2 && k - 2 in covered && k - 1 !in starts {
      CoveredEndsInMask(s, covered, starts, k - 1);
      assert ShownBy(s, covered, starts, k) == ShownBy(s, covered, starts, k - 1) + [];
    } else {
      assert ShownBy(s, covered, starts, k) == ShownBy(s, covered, starts, k - 1) + MASK;
    }
  }

  lemma MaskAtEnd(o: string, before: string, w: string)
    requires o == before + w && |w| >= 3 && o[|o| - 3..] == MASK
    ensures OccursAt(w, MASK, |w| - 3)
  {
    assert w[|w| - 3..|w| - 3 + 3] == o[|o| - 3..];
  }

  /** A text ending in a mask ends in nothing that starts without a star and holds no mask. */
  lemma MaskEndsNothing(o: string, before: string, w: string)
    requires o == before + w && |o| >= 3 && o[|o| - 3..] == MASK
    requires w != [] && NoMaskIn(w)
    ensures w[0] == '*'
  {
    if |w| >= 3 {
      MaskAtEnd(o, before, w);
    } else {
      assert w[0] == o[|o| - |w|];
      assert o[|o| - |w|] == o[|o| - 3..][3 - |w|];
    }
  }

  lemma LastCancels(a: string, x: char, b: string, y: char)
    requires a + [x] == b + [y]
    ensures a == b && x == y
  {
    assert |a + [x]| == |b + [y]|;
    assert a == (a + [x])[..|a|] && b == (b + [y])[..|b|];
    assert (a + [x])[|a|] == x && (b + [y])[|b|] == y;
  }

  /** The last character of a tail comes off both sides of an uncovered step. */
  lemma TailStep(s: string, covered: set<nat>, starts: set<nat>, k: nat, before: string, w: string)
    requires 0 < k <= |s| && k - 1 !in covered && w != [] && ShownBy(s, covered, starts, k) == before + w
    ensures ShownBy(s, covered, starts, k - 1) == before + w[..|w| - 1] && s[k - 1] == w[|w| - 1]
  {
    var front, c := w[..|w| - 1], w[|w| - 1];
    assert w == front + [c];
    assert before + w == (before + front) + [c];
    LastCancels(ShownBy(s, covered, starts, k - 1), s[k - 1], before + front, c);
  }

  /** A tail of the output that no mask can end is the tail of the input, all of it uncovered. */
  lemma {:induction false} TailIsInput(s: string, covered: set<nat>, starts: set<nat>, k: nat, before: string,
                                           w: string)
    requires k <= |s| && ShownBy(s, covered, starts, k) == before + w
    requires NoMaskIn(w) && (w != [] ==> w[0] != '*')
    ensures |w| <= k && w == s[k - |w|..k]
    ensures forall i :: k - |w| <= i < k ==> i !in covered
    decreases |w|
  {
    if w != [] {
      assert k > 0;
      if k - 1 in covered {
        CoveredEndsInMask(s, covered, starts, k);
        MaskEndsNothing(ShownBy(s, covered, starts, k), before, w);
      } else {
        var front := w[..|w| - 1];
        TailStep(s, covered, starts, k, before, w);
        NoMaskInPart(w, 0, |w| - 1);
        TailIsInput(s, covered, starts, k - 1, before, front);
        TailGrows(s, k, w);
      }
    }
  }

  lemma TailGrows(s: string, k: nat, w: string)
    requires w != [] && |w| <= k <= |s| && w[..|w| - 1] == s[k - |w|..k - 1] && s[k - 1] == w[|w| - 1]
    ensures w == s[k - |w|..k]
  {
    assert w == w[..|w| - 1] + [w[|w| - 1]];
    assert s[k - |w|..k] == s[k - |w|..k - 1] + [s[k - 1]];
  }

  /** What ends inside the mask a covered step adds ends in a star. */
  lemma EndsInStar(s: string, covered: set<nat>, starts: set<nat>, k: nat, p: string, i: nat)
    requires 0 < k <= |s| && k - 1 in covered && p != [] && OccursAt(ShownBy(s, covered, starts, k), p, i)
    requires i + |p| > |ShownBy(s, covered, starts, k - 1)|
    ensures p[|p| - 1] == '*'
  {
    var o, last := ShownBy(s, covered, starts, k), i + |p| - 1;
    var added := Showing(s, covered, starts, k - 1);
    assert o == ShownBy(s, covered, starts, k - 1) + added;
    assert p[|p| - 1] == o[i..i + |p|][|p| - 1] == o[last];
    assert o[last] == added[last - |ShownBy(s, covered, starts, k - 1)|];
  }

  /** What ends in the last step of the output and not in a star ends right at it. */
  lemma EndsUncovered(s: string, covered: set<nat>, starts: set<nat>, k: nat, p: string, i: nat)
    requires 0 < k <= |s| && k - 1 !in covered && OccursAt(ShownBy(s, covered, starts, k), p, i)
    requires i + |p| > |ShownBy(s, covered, starts, k - 1)|
    ensures ShownBy(s, covered, starts, k) == ShownBy(s, covered, starts, k)[..i] + p
  {
    var o := ShownBy(s, covered, starts, k);
    assert o == ShownBy(s, covered, starts, k - 1) + [s[k - 1]];
    assert i + |p| == |o|;
  }

  lemma OccursBefore(a: string, b: string, p: string, i: nat)
    requires OccursAt(a + b, p, i) && i + |p| <= |a|
    ensures OccursAt(a, p, i)
  {
    assert (a + b)[i..i + |p|] == a[i..i + |p|];
  }

  lemma EarlierPiece(s: string, covered: set<nat>, starts: set<nat>, k: nat, p: string, i: nat)
    requires k <= |s| && p != [] && OccursAt(ShownBy(s, covered, starts, k), p, i)
    ensures k > 0
    ensures i + |p| <= |ShownBy(s, covered, starts, k - 1)| ==> OccursAt(ShownBy(s, covered, starts, k - 1), p, i)
  {
    assert k > 0;
    if i + |p| <= |ShownBy(s, covered, starts, k - 1)| {
      OccursBefore(ShownBy(s, covered, starts, k - 1), Showing(s, covered, starts, k - 1), p, i);
    }
  }

  /** What ends in the last step of the output is the end of the input. */
  lemma LastPieceIsInput(s: string, covered: set<nat>, starts: set<nat>, k: nat, p: string, i: nat)
    requires 0 < k <= |s| && StarSafe(p) && OccursAt(ShownBy(s, covered, starts, k), p, i)
    requires i + |p| > |ShownBy(s, covered, starts, k - 1)|
    ensures |p| <= k && OccursAt(s, p, k - |p|)
    ensures forall x :: k - |p| <= x < k ==> x !in covered
  {
    if k - 1 in covered {
      EndsInStar(s, covered, starts, k, p, i);
    }
    EndsUncovered(s, covered, starts, k, p, i);
    TailIsInput(s, covered, starts, k, ShownBy(s, covered, starts, k)[..i], p);
  }

  /** A star-safe piece of the output is a piece of the input, all of it uncovered. */
  lemma {:induction false} PieceIsInput(s: string, covered: set<nat>, starts: set<nat>, k: nat, p: string, i: nat)
    returns (j: nat)
    requires k <= |s| && StarSafe(p) && OccursAt(ShownBy(s, covered, starts, k), p, i)
    ensures j + |p| <= k && OccursAt(s, p, j)
    ensures forall x :: j <= x < j + |p| ==> x !in covered
    decreases k
  {
    EarlierPiece(s, covered, starts, k, p, i);
    if i + |p| <= |ShownBy(s, covered, starts, k - 1)| {
      j := PieceIsInput(s, covered, starts, k - 1, p, i);
    } else {
      LastPieceIsInput(s, covered, starts, k, p, i);
      j := k - |p|;
    }
  }

  lemma MatchedIsCovered(s: string, patterns: set<string>, p: string, j: nat)
    requires p in patterns && p != [] && OccursAt(s, p, j)
    ensures j in CoveredPositions(s, patterns)
  {
    assert IsMatch(s, patterns, Span(j, j + |p|));
  }

  /** No registered star-safe pattern is left in the masked output. */
  lemma NoPatternSurvives(s: string, patterns: set<string>, p: string)
    requires p in patterns && StarSafe(p)
    ensures !Contains(Masked(s, patterns), p)
  {
    var o := Masked(s, patterns);
    if i: nat :| i <= |o| && OccursAt(o, p, i) {
      var j := PieceIsInput(s, CoveredPositions(s, patterns), {}, |s|, p, i);
      MatchedIsCovered(s, patterns, p, j);
    }
  }

  ghost predicate MaskableSet(patterns: set<string>) {
    forall p :: p in patterns ==> StarSafe(p)
  }

  /** Masking twice is masking once. */
  lemma MaskedIsIdempotent(s: string, patterns: set<string>)
    requires MaskableSet(patterns)
    ensures Masked(Masked(s, patterns), patterns) == Masked(s, patterns)
  {
    var o := Masked(s, patterns);
    forall k: nat | k < |o| ensures !Covered(o, patterns, k) {
      if Covered(o, patterns, k) {
        var x: Span :| IsMatch(o, patterns, x) && x.start <= k < x.end;
        var p := o[x.start..x.end];
        assert OccursAt(o, p, x.start);
        NoPatternSurvives(s, patterns, p);
      }
    }
    assert CoveredPositions(o, patterns) == {};
    ShowGap(o, CoveredPositions(o, patterns), 0, |o|);
    assert o[0..|o|] == o;
  }

  // ------------------------------------------------------------ the replace fallback

  lemma MaskAtFront(rest: string, w: string)
    requires w <= MASK + rest && |w| >= 3
    ensures OccursAt(w, MASK, 0)
  {
    assert w[0..0 + 3] == (MASK + rest)[..3];
  }

  /** A text starting with a mask starts with nothing that ends without a star and holds no mask. */
  lemma MaskStartsNothing(rest: string, w: string)
    requires w <= MASK + rest && w != [] && NoMaskIn(w)
    ensures w[|w| - 1] == '*'
  {
    var o := MASK + rest;
    if |w| >= 3 {
      MaskAtFront(rest, w);
    } else {
      assert w[|w| - 1] == o[|w| - 1] == MASK[|w| - 1];
    }
  }

  lemma {:induction false} ReplacedPrefixIsInput(s: string, p: string, w: string)
    requires p != [] && NoMaskIn(w) && (w != [] ==> w[|w| - 1] != '*') && w <= Replace(s, p, MASK)
    ensures w <= s
    decreases |s|
  {
    if w != [] {
      if p <= s {
        MaskStartsNothing(Replace(s[|p|..], p, MASK), w);
      } else {
        var o := Replace(s, p, MASK);
        assert o[1..] == Replace(s[1..], p, MASK);
        assert w[1..] <= o[1..];
        NoMaskInPart(w, 1, |w|);
        assert w[1..|w|] == w[1..];
        ReplacedPrefixIsInput(s[1..], p, w[1..]);
        assert s == [s[0]] + s[1..] && w == [w[0]] + w[1..];
      }
    }
  }

  lemma LiftOccurrence(a: string, b: string, w: string, p: string, j: nat)
    requires OccursAt(b, w, j) && !OccursAt(b, p, j)
    ensures OccursAt(a + b, w, |a| + j) && !OccursAt(a + b, p, |a| + j)
  {
  }

  lemma MaskIsStars(rest: string, i: nat)
    requires i < 3
    ensures (MASK + rest)[i] == '*'
  {
  }

  lemma SkipsMask(rest: string, w: string, i: nat)
    requires w != [] && w[0] != '*' && OccursAt(MASK + rest, w, i)
    ensures i >= 3 && OccursAt(rest, w, i - 3)
  {
    assert w[0] == (MASK + rest)[i..i + |w|][0];
    if i < 3 {
      MaskIsStars(rest, i);
    }
    OccursAtShift(MASK, rest, w, i - 3);
  }

  /** Whatever star-safe text a replacement shows was in its input, where no pattern starts. */
  lemma {:induction false} ReplacedPieceIsInput(s: string, p: string, w: string, i: nat) returns (j: nat)
    requires p != [] && StarSafe(w) && OccursAt(Replace(s, p, MASK), w, i)
    ensures OccursAt(s, w, j) && !OccursAt(s, p, j)
    decreases |s|
  {
    if p <= s {
      var rest := s[|p|..];
      SkipsMask(Replace(rest, p, MASK), w, i);
      var j' := ReplacedPieceIsInput(rest, p, w, i - 3);
      LiftOccurrence(p, rest, w, p, j');
      assert s == p + rest;
      j := j' + |p|;
    } else if i == 0 {
      assert w <= Replace(s, p, MASK);
      ReplacedPrefixIsInput(s, p, w);
      j := 0;
    } else {
      OccursAtShift([s[0]], Replace(s[1..], p, MASK), w, i - 1);
      var j' := ReplacedPieceIsInput(s[1..], p, w, i - 1);
      LiftOccurrence([s[0]], s[1..], w, p, j');
      assert s == [s[0]] + s[1..];
      j := j' + 1;
    }
  }

  lemma ReplaceRemoves(s: string, p: string)
    requires StarSafe(p)
    ensures !Contains(Replace(s, p, MASK), p)
  {
    var o := Replace(s, p, MASK);
    if i: nat :| i <= |o| && OccursAt(o, p, i) {
      var j := ReplacedPieceIsInput(s, p, p, i);
    }
  }

  lemma ReplaceAddsNothing(s: string, p: string, w: string)
    requires p != [] && StarSafe(w) && !Contains(s, w)
    ensures !Contains(Replace(s, p, MASK), w)
  {
    var o := Replace(s, p, MASK);
    if i: nat :| i <= |o| && OccursAt(o, w, i) {
      var j := ReplacedPieceIsInput(s, p, w, i);
    }
  }

  lemma {:induction false} ReplaceAbsent(s: string, p: string, sub: string)
    requires p != [] && !Contains(s, p)
    ensures Replace(s, p, sub) == s
    decreases |s|
  {
    if p <= s {
      assert OccursAt(s, p, 0);
    } else if s != [] {
      if i: nat :| i <= |s[1..]| && OccursAt(s[1..], p, i) {
        assert s == [s[0]] + s[1..];
        OccursAtShift([s[0]], s[1..], p, i);
      }
      ReplaceAbsent(s[1..], p, sub);
    }
  }

  predicate NoneEmpty(patterns: seq<string>) {
    forall i :: 0 <= i < |patterns| ==> patterns[i] != []
  }

  /** The fallback: one pattern after the other. */
  function ReplaceAll(input: string, patterns: seq<string>): string
    requires NoneEmpty(patterns)
  {
    if patterns == [] then input
    else Replace(ReplaceAll(input, patterns[..|patterns| - 1]), patterns[|patterns| - 1], MASK)
  }

  method MaskWithReplaceLoop(input: string, patterns: seq<string>) returns (result: string)
    requires NoneEmpty(patterns)
    ensures result == ReplaceAll(input, patterns)
  {
    result := input;
    var i := 0;
    while i < |patterns|
      invariant 0 <= i <= |patterns|
      invariant result == ReplaceAll(input, patterns[..i])
    {
      assert patterns[..i + 1][..i] == patterns[..i];
      result := Replace(result, patterns[i], MASK);
      i := i + 1;
    }
    assert patterns[..i] == patterns;
  }

  /** The fallback leaves no star-safe pattern either: later replacements cannot bring one back. */
  lemma {:induction false} NoPatternSurvivesFallback(input: string, patterns: seq<string>, i: nat)
    requires NoneEmpty(patterns) && i < |patterns| && StarSafe(patterns[i])
    ensures !Contains(ReplaceAll(input, patterns), patterns[i])
    decreases |patterns|
  {
    var n := |patterns| - 1;
    var before := ReplaceAll(input, patterns[..n]);
    if i == n {
      ReplaceRemoves(before, patterns[n]);
    } else {
      NoPatternSurvivesFallback(input, patterns[..n], i);
      ReplaceAddsNothing(before, patterns[n], patterns[i]);
    }
  }

  lemma {:induction false} ReplaceAllAbsent(input: string, patterns: seq<string>)
    requires NoneEmpty(patterns) && forall i :: 0 <= i < |patterns| ==> !Contains(input, patterns[i])
    ensures ReplaceAll(input, patterns) == input
  {
    if patterns != [] {
      var n := |patterns| - 1;
      ReplaceAllAbsent(input, patterns[..n]);
      ReplaceAbsent(input, patterns[n], MASK);
    }
  }

  lemma FallbackIsIdempotent(input: string, patterns: seq<string>)
    requires NoneEmpty(patterns) && forall i :: 0 <= i < |patterns| ==> StarSafe(patterns[i])
    ensures ReplaceAll(ReplaceAll(input, patterns), patterns) == ReplaceAll(input, patterns)
  {
    forall i | 0 <= i < |patterns| ensures !Contains(ReplaceAll(input, patterns), patterns[i]) {
      NoPatternSurvivesFallback(input, patterns, i);
    }
    ReplaceAllAbsent(ReplaceAll(input, patterns), patterns);
  }
}
