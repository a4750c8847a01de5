/**
 Exactly which patterns masking can leave behind (crates/shared/src/secret_masker.rs): those the mask
 itself can complete.
 */
module MaskSurvival {
  import opened Text
  import opened SecretMasker
  import opened PatternRegistry

  /** `c` repeated: masked between `a` and `b`, it stands for any secret that is not theirs. */
  function Repeated(c: char, n: nat): (t: string)
    ensures |t| == n && forall i :: 0 <= i < n ==> t[i] == c
  {
    seq(n, i => c)
  }

  /** No star, and unlike its neighbours. */
  predicate SetsApart(c: char, a: string, b: string) {
    c != '*' && (a != [] ==> a[|a| - 1] != c) && (b != [] ==> b[0] != c)
  }

  function Separator(a: string, b: string): (c: char)
    ensures SetsApart(c, a, b) && c as int < 0x80
  {
    if SetsApart('x', a, b) then 'x' else if SetsApart('y', a, b) then 'y' else 'z'
  }

  /** The secret between `a` and `b`, as long as `p`, and the text it stands in. */
  function Secret(a: string, b: string, p: string): string {
    Repeated(Separator(a, b), |p|)
  }

  function Hiding(a: string, b: string, p: string): string {
    a + (Secret(a, b, p) + b)
  }

  lemma NotAt(s: string, p: string, k: nat, i: nat)
    requires i < |p| && (k + i < |s| ==> s[k + i] != p[i])
    ensures !OccursAt(s, p, k)
  {
    if k + |p| <= |s| {
      assert s[k..k + |p|][i] == s[k + i];
    }
  }

  /** Between shorter texts the secret occurs only where it was put. */
  lemma SecretOccursOnce(a: string, b: string, p: string, k: nat)
    requires |a| < |p| && |b| < |p| && k != |a|
    ensures !OccursAt(Hiding(a, b, p), Secret(a, b, p), k)
  {
    var s, t := Hiding(a, b, p), Secret(a, b, p);
    if k < |a| {
      assert s[|a| - 1] == a[|a| - 1];
      NotAt(s, t, k, |a| - 1 - k);
    } else if k <= |a| + |p| {
      assert b != [] ==> s[|a| + |p|] == b[0];
      NotAt(s, t, k, |a| + |p| - k);
    }
  }

  /** With a star at index |a|, a text longer than `a` and `b` together occurs nowhere around the secret. */
  lemma StarredIsAbsent(a: string, b: string, p: string, k: nat)
    requires |a| + |b| < |p| && p[|a|] == '*'
    ensures !OccursAt(Hiding(a, b, p), p, k)
  {
    if k < |p| {
      assert Hiding(a, b, p)[k + |a|] == Secret(a, b, p)[k];
      NotAt(Hiding(a, b, p), p, k, |a|);
    }
  }

  /** The secret is the only match. */
  lemma OnlyTheSecretMatches(a: string, b: string, p: string, x: Span)
    requires |a| + |b| < |p| && p[|a|] == '*'
    ensures IsMatch(Hiding(a, b, p), {p, Secret(a, b, p)}, x) <==> x == Span(|a|, |a| + |p|)
  {
    var s, t := Hiding(a, b, p), Secret(a, b, p);
    if x == Span(|a|, |a| + |p|) {
      assert s[|a|..|a| + |t|] == t;
    } else if x.start <= x.end <= |s| {
      var w := s[x.start..x.end];
      StarredIsAbsent(a, b, p, x.start);
      assert w == p ==> OccursAt(s, p, x.start);
      if x.start != |a| {
        SecretOccursOnce(a, b, p, x.start);
        assert w == t ==> OccursAt(s, t, x.start);
      }
    }
  }

  lemma SecretIsCovered(a: string, b: string, p: string)
    requires |a| + |b| < |p| && p[|a|] == '*'
    ensures forall k :: k in CoveredPositions(Hiding(a, b, p), {p, Secret(a, b, p)}) <==> |a| <= k < |a| + |p|
  {
    var s, patterns, all := Hiding(a, b, p), {p, Secret(a, b, p)}, Span(|a|, |a| + |p|);
    OnlyTheSecretMatches(a, b, p, all);
    forall k: nat ensures Covered(s, patterns, k) <==> all.start <= k < all.end {
      if Covered(s, patterns, k) {
        var x: Span :| IsMatch(s, patterns, x) && x.start <= k < x.end;
        OnlyTheSecretMatches(a, b, p, x);
      }
    }
  }

  /** Masking the secret puts the mask between `a` and `b`. */
  lemma MaskedHiding(a: string, b: string, p: string)
    requires |a| + |b| < |p| && p[|a|] == '*'
    ensures Masked(Hiding(a, b, p), {p, Secret(a, b, p)}) == a + (MASK + b)
  {
    SecretIsCovered(a, b, p);
    ShownAround(a, Secret(a, b, p), b, CoveredPositions(Hiding(a, b, p), {p, Secret(a, b, p)}));
  }

  lemma Between(a: string, t: string, b: string)
    ensures var s := a + (t + b); s[0..|a|] == a && s[|a| + |t|..|s|] == b
  {
  }

  lemma ShownAround(a: string, t: string, b: string, covered: set<nat>)
    requires t != [] && forall k :: k in covered <==> |a| <= k < |a| + |t|
    ensures Shown(a + (t + b), covered, |a + (t + b)|) == a + (MASK + b)
  {
    var s, hi := a + (t + b), |a| + |t|;
    Between(a, t, b);
    ShowGap(s, covered, 0, |a|);
    ShowRun(s, covered, |a|, hi);
    ShowGap(s, covered, hi, |s|);
    assert Shown(s, covered, 0) + s[0..|a|] == a;
    ConcatAssoc(a, MASK, b);
  }

  ghost predicate OnlyAt(s: string, p: string, k: nat) {
    forall i: nat :: i != k ==> !OccursAt(s, p, i)
  }

  lemma OnlyAtStart(t: string, b: string)
    requires t != [] && OnlyAt(t + b, t, 0)
    ensures !Contains(b, t)
  {
    forall i: nat ensures !OccursAt(b, t, i) {
      OccursAtShift(t, b, t, i);
    }
  }

  lemma OnlyAtLater(c: char, s: string, p: string, k: nat)
    requires k > 0 && p != [] && OnlyAt([c] + s, p, k)
    ensures OnlyAt(s, p, k - 1) && !(p <= [c] + s)
  {
    assert !OccursAt([c] + s, p, 0);
    forall i: nat | i != k - 1 ensures !OccursAt(s, p, i) {
      OccursAtShift([c], s, p, i);
    }
  }

  lemma ReplaceSkips(c: char, s: string, p: string)
    requires p != [] && !(p <= [c] + s)
    ensures Replace([c] + s, p, MASK) == [c] + Replace(s, p, MASK)
  {
    assert ([c] + s)[1..] == s;
  }

  lemma {:induction false} ReplaceBetween(a: string, t: string, b: string)
    requires t != [] && OnlyAt(a + (t + b), t, |a|)
    ensures Replace(a + (t + b), t, MASK) == a + (MASK + b)
    decreases |a|
  {
    if a == [] {
      assert a + (t + b) == t + b && (t + b)[|t|..] == b && a + (MASK + b) == MASK + b;
      OnlyAtStart(t, b);
      ReplaceAbsent(b, t, MASK);
    } else {
      var s := a[1..] + (t + b);
      assert a + (t + b) == [a[0]] + s;
      OnlyAtLater(a[0], s, t, |a|);
      ReplaceSkips(a[0], s, t);
      ReplaceBetween(a[1..], t, b);
      assert a + (MASK + b) == [a[0]] + (a[1..] + (MASK + b));
    }
  }

  lemma {:induction false} RepeatedBytes(c: char, n: nat)
    requires c as int < 0x80
    ensures ByteLen(Repeated(c, n)) == n
    decreases n
  {
    if n > 0 {
      assert Repeated(c, n)[1..] == Repeated(c, n - 1);
      RepeatedBytes(c, n - 1);
    }
  }

  lemma {:induction false} BytesAtLeast(p: string)
    ensures ByteLen(p) >= |p|
  {
    if p != [] {
      BytesAtLeast(p[1..]);
    }
  }

  /** The pattern and the secret, in the order the registry keeps them. */
  lemma SecretComesAfter(a: string, b: string, p: string)
    requires p != []
    ensures LongestFirst([p, Secret(a, b, p)]) && NoneEmpty([p, Secret(a, b, p)])
  {
    RepeatedBytes(Separator(a, b), |p|);
    BytesAtLeast(p);
  }

  /** The fallback puts the mask there too: `p` is tried first and is not yet there. */
  lemma FallbackHiding(a: string, b: string, p: string)
    requires |a| + |b| < |p| && p[|a|] == '*'
    ensures NoneEmpty([p, Secret(a, b, p)])
    ensures ReplaceAll(Hiding(a, b, p), [p, Secret(a, b, p)]) == a + (MASK + b)
  {
    var s, t := Hiding(a, b, p), Secret(a, b, p);
    forall k: nat ensures !OccursAt(s, p, k) {
      StarredIsAbsent(a, b, p, k);
    }
    forall k: nat | k != |a| ensures !OccursAt(s, t, k) {
      SecretOccursOnce(a, b, p, k);
    }
    ReplaceAbsent(s, p, MASK);
    ReplaceBetween(a, t, b);
    assert [p, t][..1] == [p] && [p][..0] == [];
    assert ReplaceAll(s, [p]) == s;
  }

  /** Where a text that is not star-safe leaves room for a mask. */
  lemma MaskCompletes(p: string) returns (a: string, b: string)
    requires p != [] && !StarSafe(p)
    ensures |a| + |b| < |p| && p[|a|] == '*' && Contains(a + (MASK + b), p)
  {
    var n := |p|;
    if p[0] == '*' {
      a, b := [], p[1..];
      assert (a + (MASK + b))[2..2 + n] == p;
      assert OccursAt(a + (MASK + b), p, 2);
    } else if p[n - 1] == '*' {
      a, b := p[..n - 1], [];
      assert (a + (MASK + b))[0..0 + n] == p;
      assert OccursAt(a + (MASK + b), p, 0);
    } else {
      var i: nat :| OccursAt(p, MASK, i);
      a, b := p[..i], p[i + 3..];
      assert p[i] == p[i..i + 3][0];
      assert p == p[..i] + (p[i..i + 3] + p[i + 3..]);
      assert (a + (MASK + b))[0..0 + n] == p;
      assert OccursAt(a + (MASK + b), p, 0);
    }
  }

  /** Whatever the text and whatever else is registered, masking leaves no `p` behind. */
  ghost predicate NeverSurvives(p: string) {
    forall s: string, patterns: set<string> {:trigger Masked(s, patterns)} ::
      p in patterns ==> !Contains(Masked(s, patterns), p)
  }

  /** The same of the fallback, over the lists the registry keeps. */
  ghost predicate NeverSurvivesFallback(p: string) {
    forall s: string, patterns: seq<string> {:trigger ReplaceAll(s, patterns)} ::
      NoneEmpty(patterns) && LongestFirst(patterns) && p in patterns ==> !Contains(ReplaceAll(s, patterns), p)
  }

  /** A registered pattern never survives masking exactly when it neither starts nor ends in a star nor
      contains the mask. */
  lemma NeverSurvivesIff(p: string)
    requires p != []
    ensures NeverSurvives(p) <==> StarSafe(p)
  {
    if StarSafe(p) {
      forall s: string, patterns: set<string> | p in patterns ensures !Contains(Masked(s, patterns), p) {
        NoPatternSurvives(s, patterns, p);
      }
    } else {
      var a, b := MaskCompletes(p);
      MaskedHiding(a, b, p);
      assert p in {p, Secret(a, b, p)} && Contains(Masked(Hiding(a, b, p), {p, Secret(a, b, p)}), p);
    }
  }

  /** The same condition decides for the longest-first replace fallback. */
  lemma NeverSurvivesFallbackIff(p: string)
    requires p != []
    ensures NeverSurvivesFallback(p) <==> StarSafe(p)
  {
    if StarSafe(p) {
      forall s: string, patterns: seq<string> | NoneEmpty(patterns) && LongestFirst(patterns) && p in patterns
        ensures !Contains(ReplaceAll(s, patterns), p)
      {
        var i :| 0 <= i < |patterns| && patterns[i] == p;
        NoPatternSurvivesFallback(s, patterns, i);
      }
    } else {
      var a, b := MaskCompletes(p);
      FallbackHiding(a, b, p);
      SecretComesAfter(a, b, p);
      assert p in [p, Secret(a, b, p)] && Contains(ReplaceAll(Hiding(a, b, p), [p, Secret(a, b, p)]), p);
    }
  }
}
