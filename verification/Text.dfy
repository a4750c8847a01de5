/** Sequences, and the string operations of the Rust standard library the modelled code relies on. */
module Text {

  datatype Option<+T> = None | Some(value: T)

  // ----------------------------------------------------------------- sequences

  predicate NoDup<T(==)>(s: seq<T>) {
    forall i, j :: 0 <= i < j < |s| ==> s[i] != s[j]
  }

  function Elements<T>(s: seq<T>): set<T> {
    set x | x in s
  }

  lemma ConcatAssoc<T>(a: seq<T>, b: seq<T>, c: seq<T>)
    ensures (a + b) + c == a + (b + c)
  {
  }

  // ----------------------------------------------------------------- characters

  /** Unicode White_Space, the class `char::is_whitespace` and `str::trim` use. */
  predicate IsWhitespace(c: char) {
    var n := c as int;
    || 0x09 <= n <= 0x0D || n == 0x20 || n == 0x85 || n == 0xA0 || n == 0x1680
    || 0x2000 <= n <= 0x200A || n == 0x2028 || n == 0x2029 || n == 0x202F || n == 0x205F || n == 0x3000
  }

  /** Bytes one character takes in UTF-8, so that lengths are the byte lengths Rust reports. */
  function Width(c: char): nat {
    var n := c as int;
    if n < 0x80 then 1 else if n < 0x800 then 2 else if n < 0x1_0000 then 3 else 4
  }

  function ByteLen(s: string): nat {
    if s == [] then 0 else Width(s[0]) + ByteLen(s[1..])
  }

  // ------------------------------------------------------------------- trimming

  function TrimStart(s: string): string {
    if s != [] && IsWhitespace(s[0]) then TrimStart(s[1..]) else s
  }

  function TrimEnd(s: string): string {
    if s != [] && IsWhitespace(s[|s| - 1]) then TrimEnd(s[..|s| - 1]) else s
  }

  function Trim(s: string): string {
    TrimEnd(TrimStart(s))
  }

  // --------------------------------------------------------- searching, splitting

  predicate OccursAt(s: string, p: string, i: nat) {
    i + |p| <= |s| && s[i..i + |p|] == p
  }

  predicate Contains(s: string, p: string) {
    exists i: nat :: i <= |s| && OccursAt(s, p, i)
  }

  lemma OccursAtShift(a: string, b: string, p: string, i: nat)
    ensures OccursAt(a + b, p, |a| + i) <==> OccursAt(b, p, i)
  {
  }

  /** The pieces between separators, at least one. */
  function Split(s: string, seps: set<char>): (pieces: seq<string>)
    ensures pieces != []
  {
    if s == [] then [[]]
    else
      var rest := Split(s[1..], seps);
      if s[0] in seps then [[]] + rest else [[s[0]] + rest[0]] + rest[1..]
  }

  predicate FreeOf(s: string, seps: set<char>) {
    forall i :: 0 <= i < |s| ==> s[i] !in seps
  }

  lemma {:induction false} SplitWhole(s: string, seps: set<char>)
    requires FreeOf(s, seps)
    ensures Split(s, seps) == [s]
  {
    if s != [] {
      SplitWhole(s[1..], seps);
      assert s == [s[0]] + s[1..];
    }
  }

  /** Splitting goes on afresh after a separator. */
  lemma {:induction false} SplitAt(s: string, sep: string, rest: string, seps: set<char>)
    requires |sep| == 1 && sep[0] in seps
    ensures Split(s + (sep + rest), seps) == Split(s, seps) + Split(rest, seps)
    decreases |s|
  {
    var text := s + (sep + rest);
    if s == [] {
      assert text[0] == sep[0] && text[1..] == rest;
    } else {
      assert text[0] == s[0] && text[1..] == s[1..] + (sep + rest);
      SplitAt(s[1..], sep, rest, seps);
    }
  }

  lemma SplitFirst(s: string, sep: string, rest: string, seps: set<char>)
    requires FreeOf(s, seps) && |sep| == 1 && sep[0] in seps
    ensures Split(s + (sep + rest), seps) == [s] + Split(rest, seps)
  {
    SplitAt(s, sep, rest, seps);
    SplitWhole(s, seps);
  }

  function Join(pieces: seq<string>, sep: string): string {
    if pieces == [] then []
    else if |pieces| == 1 then pieces[0]
    else pieces[0] + sep + Join(pieces[1..], sep)
  }

  /** `str::split_once`: around the first occurrence. */
  function SplitOnce(s: string, p: string): Option<(string, string)>
    requires p != []
  {
    if p <= s then Some(([], s[|p|..]))
    else if s == [] then None
    else match SplitOnce(s[1..], p)
      case None => None
      case Some((before, after)) => Some(([s[0]] + before, after))
  }

  function StripPrefix(s: string, p: string): Option<string> {
    if p <= s then Some(s[|p|..]) else None
  }

  /** The number a string of ASCII digits denotes. */
  function Decimal(digits: string): int {
    if digits == [] then 0 else 10 * Decimal(digits[..|digits| - 1]) + (digits[|digits| - 1] as int - '0' as int)
  }

  // ----------------------------------------------------------------- replacement

  /** `str::replace` with a nonempty pattern: leftmost, non-overlapping. */
  function Replace(s: string, p: string, sub: string): string
    requires p != []
    decreases |s|
  {
    if p <= s then sub + Replace(s[|p|..], p, sub)
    else if s == [] then []
    else [s[0]] + Replace(s[1..], p, sub)
  }

  /** Every character mapped on its own: what replacing a one-character pattern amounts to. */
  function FlatMap(s: string, f: char -> string): string {
    if s == [] then [] else f(s[0]) + FlatMap(s[1..], f)
  }

  function ReplaceChar(s: string, c: char, sub: string): string {
    FlatMap(s, x => if x == c then sub else [x])
  }

  lemma {:induction false} ReplaceCharIsReplace(s: string, c: char, sub: string)
    ensures ReplaceChar(s, c, sub) == Replace(s, [c], sub)
  {
    if s != [] {
      ReplaceCharIsReplace(s[1..], c, sub);
      assert ([c] <= s) == (s[0] == c);
    }
  }

  lemma {:induction false} FlatMapAppend(s: string, t: string, f: char -> string)
    ensures FlatMap(s + t, f) == FlatMap(s, f) + FlatMap(t, f)
  {
    if s == [] {
      assert s + t == t;
    } else {
      assert (s + t)[1..] == s[1..] + t;
      FlatMapAppend(s[1..], t, f);
    }
  }

  lemma ReplaceCharOne(x: char, c: char, sub: string)
    ensures ReplaceChar([x], c, sub) == if x == c then sub else [x]
  {
    var f := (y: char) => if y == c then sub else [y];
    assert [x][1..] == [];
    assert FlatMap([x], f) == f(x) + FlatMap([], f);
    assert f(x) + [] == f(x);
  }

  lemma ReplaceCharAppend(a: string, b: string, c: char, sub: string)
    ensures ReplaceChar(a + b, c, sub) == ReplaceChar(a, c, sub) + ReplaceChar(b, c, sub)
  {
    FlatMapAppend(a, b, x => if x == c then sub else [x]);
  }

  lemma {:induction false} ReplaceCharAbsent(s: string, c: char, sub: string)
    requires forall i :: 0 <= i < |s| ==> s[i] != c
    ensures ReplaceChar(s, c, sub) == s
  {
    if s != [] {
      ReplaceCharAbsent(s[1..], c, sub);
      ReplaceCharAppend([s[0]], s[1..], c, sub);
      ReplaceCharOne(s[0], c, sub);
      assert s == [s[0]] + s[1..];
    }
  }
}
