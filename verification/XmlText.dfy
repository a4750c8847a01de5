/**
 XML escaping for launchd plists (crates/config/src/service_unit.rs): the one-pass escape, the
 five chained replacements that undo it, and searching a document made of tags and text.
 */
module XmlText {
  import opened Text

  // ----------------------------------------------------------------- escape, unescape

  function XmlChar(c: char): string {
    if c == '&' then "&amp;"
    else if c == '<' then "&lt;"
    else if c == '>' then "&gt;"
    else if c == '\"' then "&quot;"
    else if c == '\'' then "&apos;"
    else [c]
  }

  method XmlEscape(s: string) returns (out: string)
    ensures out == Escaped(s)
  {
    out := [];
    var i := 0;
    while i < |s|
      invariant 0 <= i <= |s|
      invariant out == Escaped(s[..i])
    {
      FlatMapAppend(s[..i], [s[i]], XmlChar);
      assert s[..i + 1] == s[..i] + [s[i]];
      FlatMapOne(s[i], XmlChar);
      out := out + XmlChar(s[i]);
      i := i + 1;
    }
    assert s[..i] == s;
  }

  function Escaped(s: string): string {
    FlatMap(s, XmlChar)
  }

  /** `xml_unescape`, `&amp;` last. */
  function Unescape(s: string): string {
    Replace(Replace(Replace(Replace(Replace(s,
      "&lt;", "<"), "&gt;", ">"), "&quot;", "\""), "&apos;", "\'"), "&amp;", "&")
  }

  lemma FlatMapOne(c: char, f: char -> string)
    ensures FlatMap([c], f) == f(c)
  {
    assert [c][1..] == [];
    assert f(c) + [] == f(c);
  }

  /** The escape with the first `k` entities already undone. */
  function Stage(k: nat, c: char): string {
    if c == '&' then if k >= 5 then "&" else "&amp;"
    else if c == '<' then if k >= 1 then "<" else "&lt;"
    else if c == '>' then if k >= 2 then ">" else "&gt;"
    else if c == '\"' then if k >= 3 then "\"" else "&quot;"
    else if c == '\'' then if k >= 4 then "\'" else "&apos;"
    else [c]
  }

  function StageText(k: nat, s: string): string {
    FlatMap(s, c => Stage(k, c))
  }

  predicate Entity(k: nat, p: string, sub: string) {
    || (k == 1 && p == "&lt;" && sub == "<")
    || (k == 2 && p == "&gt;" && sub == ">")
    || (k == 3 && p == "&quot;" && sub == "\"")
    || (k == 4 && p == "&apos;" && sub == "\'")
    || (k == 5 && p == "&amp;" && sub == "&")
  }

  /** No entity can begin inside `a`: it has no ampersand, or one in front of another entity. */
  predicate Apart(a: string, p: string) {
    && a != []
    && (forall i :: 1 <= i < |a| ==> a[i] != '&')
    && (a[0] == '&' ==> !(a <= p) && !(p <= a))
  }

  /** At each stage a character is the entity being undone, or keeps out of its way. */
  lemma StageChar(k: nat, p: string, sub: string, c: char)
    requires Entity(k, p, sub)
    ensures (Stage(k - 1, c) == p && Stage(k, c) == sub)
            || (Stage(k, c) == Stage(k - 1, c) && Apart(Stage(k - 1, c), p))
  {
    var a := Stage(k - 1, c);
    if a != p {
      assert a[0] == '&' ==> a[1] != p[1] || (|a| > 2 && |p| > 2 && a[2] != p[2]);
    }
  }

  lemma {:induction false} ReplaceSkips(a: string, rest: string, p: string, sub: string)
    requires p != [] && forall i :: 0 <= i < |a| ==> !(p <= (a + rest)[i..])
    ensures Replace(a + rest, p, sub) == a + Replace(rest, p, sub)
    decreases |a|
  {
    if a == [] {
      assert a + rest == rest;
    } else {
      var s := a + rest;
      assert s[0..] == s;
      assert s[1..] == a[1..] + rest;
      forall i | 0 <= i < |a[1..]| ensures !(p <= (a[1..] + rest)[i..]) {
        assert s[1..][i..] == s[i + 1..];
      }
      ReplaceSkips(a[1..], rest, p, sub);
      assert a == [a[0]] + a[1..];
    }
  }

  lemma NotPrefixOfEither(a: string, rest: string, p: string)
    requires !(a <= p) && !(p <= a)
    ensures !(p <= a + rest)
  {
    if |p| <= |a| {
      var i := FirstDifference(p, a[..|p|]);
      DifferAt(p, a + rest, i);
    } else {
      var i := FirstDifference(a, p[..|a|]);
      DifferAt(p, a + rest, i);
    }
  }

  lemma ApartIsSkipped(a: string, rest: string, p: string, sub: string)
    requires Apart(a, p) && p != [] && p[0] == '&'
    ensures Replace(a + rest, p, sub) == a + Replace(rest, p, sub)
  {
    forall i | 0 <= i < |a| ensures !(p <= (a + rest)[i..]) {
      assert (a + rest)[i..][0] == a[i];
      if i == 0 && a[0] == '&' {
        NotPrefixOfEither(a, rest, p);
        assert (a + rest)[0..] == a + rest;
      }
    }
    ReplaceSkips(a, rest, p, sub);
  }

  lemma EntityIsReplaced(rest: string, p: string, sub: string)
    requires p != []
    ensures Replace(p + rest, p, sub) == sub + Replace(rest, p, sub)
  {
    assert (p + rest)[|p|..] == rest;
  }

  lemma {:induction false} UndoStage(k: nat, p: string, sub: string, s: string)
    requires Entity(k, p, sub)
    ensures Replace(StageText(k - 1, s), p, sub) == StageText(k, s)
    decreases |s|
  {
    if s != [] {
      var c, tail := s[0], s[1..];
      UndoStage(k, p, sub, tail);
      StageChar(k, p, sub, c);
      if Stage(k - 1, c) == p {
        EntityIsReplaced(StageText(k - 1, tail), p, sub);
      } else {
        ApartIsSkipped(Stage(k - 1, c), StageText(k - 1, tail), p, sub);
      }
    }
  }

  lemma {:induction false} StageEnds(s: string)
    ensures StageText(0, s) == Escaped(s) && StageText(5, s) == s
    decreases |s|
  {
    if s != [] {
      StageEnds(s[1..]);
      assert Stage(0, s[0]) == XmlChar(s[0]) && Stage(5, s[0]) == [s[0]];
    }
  }

  /** Unescaping undoes escaping, for every string. */
  lemma UnescapeUndoesEscape(s: string)
    ensures Unescape(Escaped(s)) == s
  {
    StageEnds(s);
    UndoStage(1, "&lt;", "<", s);
    UndoStage(2, "&gt;", ">", s);
    UndoStage(3, "&quot;", "\"", s);
    UndoStage(4, "&apos;", "\'", s);
    UndoStage(5, "&amp;", "&", s);
  }

  // ------------------------------------------------------------- documents as pieces

  predicate NoAngle(s: string) {
    forall i :: 0 <= i < |s| ==> s[i] != '<' && s[i] != '>'
  }

  lemma {:induction false} EscapedHasNoAngle(s: string)
    ensures NoAngle(Escaped(s))
  {
    if s != [] {
      EscapedHasNoAngle(s[1..]);
      assert NoAngle(XmlChar(s[0]));
    }
  }

  /** Plain text, one tag, or a whole `<key>` element. */
  datatype Piece = Plain(text: string) | Tag(name: string) | Key(key: string)

  predicate Wellformed(piece: Piece) {
    match piece
    case Plain(t) => NoAngle(t)
    case Tag(n) => NoAngle(n) && n != "key"
    case Key(k) => NoAngle(k)
  }

  predicate AllWellformed(pieces: seq<Piece>) {
    forall i :: 0 <= i < |pieces| ==> Wellformed(pieces[i])
  }

  function TagText(name: string): string {
    "<" + name + ">"
  }

  function KeyText(key: string): string {
    "<key>" + key + "</key>"
  }

  function PieceText(piece: Piece): string {
    match piece
    case Plain(t) => t
    case Tag(n) => TagText(n)
    case Key(k) => KeyText(k)
  }

  function Render(pieces: seq<Piece>): string {
    if pieces == [] then [] else PieceText(pieces[0]) + Render(pieces[1..])
  }

  lemma {:induction false} RenderConcat(a: seq<Piece>, b: seq<Piece>)
    ensures Render(a + b) == Render(a) + Render(b)
    decreases |a|
  {
    if a == [] {
      assert a + b == b;
    } else {
      assert (a + b)[1..] == a[1..] + b;
      RenderConcat(a[1..], b);
    }
  }

  // ------------------------------------------------------------------- splitting once

  /** `p` begins nowhere in the first |a| positions of `a + rest`. */
  ghost predicate Clear(a: string, rest: string, p: string) {
    forall i :: 0 <= i < |a| ==> !(p <= (a + rest)[i..])
  }

  function Prepend(a: string, r: Option<(string, string)>): Option<(string, string)> {
    match r
    case None => None
    case Some((before, after)) => Some((a + before, after))
  }

  lemma {:induction false} SplitOncePast(a: string, rest: string, p: string)
    requires p != [] && Clear(a, rest, p)
    ensures SplitOnce(a + rest, p) == Prepend(a, SplitOnce(rest, p))
    decreases |a|
  {
    if a == [] {
      assert a + rest == rest;
      PrependNothing(SplitOnce(rest, p));
    } else {
      var s := a + rest;
      assert s[0..] == s && !(p <= s[0..]);
      assert s[1..] == a[1..] + rest;
      forall i | 0 <= i < |a[1..]| ensures !(p <= (a[1..] + rest)[i..]) {
        assert s[1..][i..] == s[i + 1..];
      }
      SplitOncePast(a[1..], rest, p);
      PrependTwice([a[0]], a[1..], SplitOnce(rest, p));
      assert [a[0]] + a[1..] == a;
    }
  }

  lemma SplitOnceHit(rest: string, p: string)
    requires p != []
    ensures SplitOnce(p + rest, p) == Some(([], rest))
  {
    assert (p + rest)[|p|..] == rest;
  }

  lemma TextIsClear(t: string, rest: string, p: string)
    requires NoAngle(t) && p != [] && p[0] == '<'
    ensures Clear(t, rest, p)
  {
    forall i | 0 <= i < |t| ensures !(p <= (t + rest)[i..]) {
      assert (t + rest)[i..][0] == t[i];
    }
  }

  lemma DifferAt(p: string, s: string, i: nat)
    requires i < |p| && i < |s| && p[i] != s[i]
    ensures !(p <= s)
  {
  }

  lemma FirstDifference(a: string, b: string) returns (i: nat)
    requires |a| == |b| && a != b
    ensures i < |a| && a[i] != b[i]
  {
    i :| i < |a| && a[i] != b[i];
  }

  /** Two texts that differ before either shows `mark` are not prefixes of one another. */
  lemma MarkedApart(a: string, b: string, mark: char, restA: string, restB: string)
    requires a != b
    requires (forall i :: 0 <= i < |a| ==> a[i] != mark) && (forall i :: 0 <= i < |b| ==> b[i] != mark)
    ensures !(b + ([mark] + restB) <= a + ([mark] + restA))
  {
    var s, p := a + ([mark] + restA), b + ([mark] + restB);
    assert p[|b|] == mark && s[|a|] == mark;
    if |b| < |a| {
      DifferAt(p, s, |b|);
    } else if |a| < |b| {
      DifferAt(p, s, |a|);
    } else {
      var i := FirstDifference(a, b);
      DifferAt(p, s, i);
    }
  }

  lemma PrefixAfterCommon(x: string, p: string, s: string)
    requires !(p <= s)
    ensures !(x + p <= x + s)
  {
    if |p| <= |s| {
      var i := FirstDifference(p, s[..|p|]);
      DifferAt(x + p, x + s, |x| + i);
    }
  }

  /** A tag is no beginning of a different tag. */
  lemma TagIsClear(n: string, rest: string, m: string, more: string)
    requires NoAngle(n) && NoAngle(m) && n != m
    ensures Clear(TagText(n), rest, TagText(m) + more)
  {
    var a, p := TagText(n), TagText(m) + more;
    MarkedApart(n, m, '>', rest, more);
    PrefixAfterCommon("<", m + (">" + more), n + (">" + rest));
    assert a + rest == "<" + (n + (">" + rest));
    assert p == "<" + (m + (">" + more));
    forall i | 0 <= i < |a| ensures !(p <= (a + rest)[i..]) {
      if i > 0 {
        assert (a + rest)[i..][0] == a[i];
        DifferAt(p, (a + rest)[i..], 0);
      } else {
        assert (a + rest)[0..] == a + rest;
      }
    }
  }

  /** A key element is no beginning of another key's element. */
  lemma KeyIsClearOfKey(k: string, rest: string, m: string)
    requires NoAngle(k) && NoAngle(m) && k != m
    ensures Clear(KeyText(k), rest, KeyText(m))
  {
    var a, p := KeyText(k), KeyText(m);
    MarkedApart(k, m, '<', "/key>" + rest, "/key>");
    PrefixAfterCommon("<key>", m + ("<" + "/key>"), k + ("<" + ("/key>" + rest)));
    assert a + rest == "<key>" + (k + ("<" + ("/key>" + rest)));
    assert p == "<key>" + (m + ("<" + "/key>"));
    forall i | 0 <= i < |a| ensures !(p <= (a + rest)[i..]) {
      if i == 0 {
        assert (a + rest)[0..] == a + rest;
      } else if i == 5 + |k| {
        assert (a + rest)[i..][1] == '/';
        DifferAt(p, (a + rest)[i..], 1);
      } else {
        KeyAngles(k, i);
        assert (a + rest)[i..][0] == a[i];
        DifferAt(p, (a + rest)[i..], 0);
      }
    }
  }

  lemma KeyAngles(k: string, i: nat)
    requires NoAngle(k) && 0 < i < |KeyText(k)| && i != 5 + |k|
    ensures KeyText(k)[i] != '<'
  {
    var a := KeyText(k);
    if i < 5 {
      assert a[i] == "<key>"[i];
    } else if i < 5 + |k| {
      assert a[i] == k[i - 5];
    } else {
      assert a[i] == "</key>"[i - 5 - |k|];
    }
  }

  /** A key element is no beginning of a tag that is neither `key` nor `/key`. */
  lemma KeyIsClearOfTag(k: string, rest: string, m: string)
    requires NoAngle(k) && NoAngle(m) && m != "key" && m != "/key"
    ensures Clear(KeyText(k), rest, TagText(m))
  {
    var a, p := KeyText(k), TagText(m);
    assert a == TagText("key") + (k + TagText("/key"));
    TagIsClear("key", (k + TagText("/key")) + rest, m, []);
    TagIsClear("/key", rest, m, []);
    assert TagText(m) + [] == TagText(m);
    TextIsClear(k, TagText("/key") + rest, p);
    ClearConcat(k, TagText("/key"), rest, p);
    ClearConcat(TagText("key"), k + TagText("/key"), rest, p);
  }

  lemma ClearConcat(a: string, b: string, rest: string, p: string)
    requires Clear(a, b + rest, p) && Clear(b, rest, p)
    ensures Clear(a + b, rest, p)
  {
    forall i | 0 <= i < |a + b| ensures !(p <= ((a + b) + rest)[i..]) {
      ConcatAssoc(a, b, rest);
      if i >= |a| {
        assert (a + (b + rest))[i..] == (b + rest)[i - |a|..];
      }
    }
  }

  // ------------------------------------------------------------- splitting documents

  predicate MissesTag(piece: Piece, name: string) {
    piece.Tag? ==> piece.name != name
  }

  predicate MissesKey(piece: Piece, key: string) {
    piece.Key? ==> piece.key != key
  }

  lemma PieceClearOfTag(piece: Piece, rest: string, name: string)
    requires Wellformed(piece) && MissesTag(piece, name) && NoAngle(name) && name != "key" && name != "/key"
    ensures Clear(PieceText(piece), rest, TagText(name))
  {
    match piece
    case Plain(t) => TextIsClear(t, rest, TagText(name));
    case Tag(n) =>
      TagIsClear(n, rest, name, []);
      assert TagText(name) + [] == TagText(name);
    case Key(k) => KeyIsClearOfTag(k, rest, name);
  }

  lemma PieceClearOfKey(piece: Piece, rest: string, key: string)
    requires Wellformed(piece) && MissesKey(piece, key) && NoAngle(key)
    ensures Clear(PieceText(piece), rest, KeyText(key))
  {
    match piece
    case Plain(t) => TextIsClear(t, rest, KeyText(key));
    case Tag(n) =>
      TagIsClear(n, rest, "key", key + "</key>");
      assert TagText("key") + (key + "</key>") == KeyText(key);
    case Key(k) => KeyIsClearOfKey(k, rest, key);
  }

  /** Splitting at a tag passes over pieces without it. */
  lemma {:induction false} SplitPastTag(pieces: seq<Piece>, rest: string, name: string)
    requires AllWellformed(pieces) && NoAngle(name) && name != "key" && name != "/key"
    requires forall i :: 0 <= i < |pieces| ==> MissesTag(pieces[i], name)
    ensures SplitOnce(Render(pieces) + rest, TagText(name)) == Prepend(Render(pieces), SplitOnce(rest, TagText(name)))
    decreases |pieces|
  {
    if pieces == [] {
      assert Render(pieces) + rest == rest;
      PrependNothing(SplitOnce(rest, TagText(name)));
    } else {
      var more := Render(pieces[1..]) + rest;
      SplitPastTag(pieces[1..], rest, name);
      PieceClearOfTag(pieces[0], more, name);
      SplitOncePast(PieceText(pieces[0]), more, TagText(name));
      ConcatAssoc(PieceText(pieces[0]), Render(pieces[1..]), rest);
      PrependTwice(PieceText(pieces[0]), Render(pieces[1..]), SplitOnce(rest, TagText(name)));
    }
  }

  /** Splitting at a key passes over pieces without it. */
  lemma {:induction false} SplitPastKey(pieces: seq<Piece>, rest: string, key: string)
    requires AllWellformed(pieces) && NoAngle(key)
    requires forall i :: 0 <= i < |pieces| ==> MissesKey(pieces[i], key)
    ensures SplitOnce(Render(pieces) + rest, KeyText(key)) == Prepend(Render(pieces), SplitOnce(rest, KeyText(key)))
    decreases |pieces|
  {
    if pieces == [] {
      assert Render(pieces) + rest == rest;
      PrependNothing(SplitOnce(rest, KeyText(key)));
    } else {
      var more := Render(pieces[1..]) + rest;
      SplitPastKey(pieces[1..], rest, key);
      PieceClearOfKey(pieces[0], more, key);
      SplitOncePast(PieceText(pieces[0]), more, KeyText(key));
      ConcatAssoc(PieceText(pieces[0]), Render(pieces[1..]), rest);
      PrependTwice(PieceText(pieces[0]), Render(pieces[1..]), SplitOnce(rest, KeyText(key)));
    }
  }

  lemma PrependNothing(r: Option<(string, string)>)
    ensures Prepend([], r) == r
  {
    if r.Some? {
      assert [] + r.value.0 == r.value.0;
    }
  }

  lemma PrependTwice(a: string, b: string, r: Option<(string, string)>)
    ensures Prepend(a, Prepend(b, r)) == Prepend(a + b, r)
  {
    if r.Some? {
      ConcatAssoc(a, b, r.value.0);
    }
  }
}
