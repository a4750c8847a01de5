/**
 The layout half of `format_number` (crates/expressions/src/number.rs): from the digits and exponent
 of the scientific form to plain decimal text.
 */
module NumberLayout {
  import opened Text
  import opened Syntax

  const DOT: string := "."
  const ZERO: string := "0"

  // -------------------------------------------------------------------------- the code

  /** `trim_end_matches`. */
  function TrimEndChar(s: string, c: char): string {
    if s != [] && s[|s| - 1] == c then TrimEndChar(s[..|s| - 1], c) else s
  }

  function Zeros(n: nat): (s: string)
    ensures |s| == n
  {
    seq(n, i => '0')
  }

  function TryNat(i: int): Option<nat> {
    if i >= 0 then Some(i) else None
  }

  /** `str::get(..n)` and `str::get(n..)`. */
  function Cut(s: string, n: nat): Option<(string, string)> {
    if n <= |s| then Some((s[..n], s[n..])) else None
  }

  /** The mantissa of `{:.14e}` without its sign: one digit, the point, the other digits; then trimmed. */
  function Trimmed(lead: char, fraction: string): string {
    TrimEndChar(TrimEndChar([lead] + (DOT + fraction), '0'), '.')
  }

  /** The three layout branches, and None where the code would fall back to the scientific text. */
  function Layout(sign: string, unsigned: string, exponent: int): Option<string> {
    var digits := ReplaceChar(unsigned, '.', []);
    var point := exponent + 1;
    if point <= 0 then
      match TryNat(-point)
      case None => None
      case Some(zeros) => Some(sign + (ZERO + (DOT + (Zeros(zeros) + digits))))
    else match TryNat(point)
      case None => None
      case Some(p) =>
        if p >= |digits| then Some(sign + (digits + Zeros(p - |digits|)))
        else match Cut(digits, p)
          case None => None
          case Some((left, right)) => Some(sign + (left + (DOT + right)))
  }

  // ------------------------------------------------------------------ what text denotes

  /** n * 10^k. */
  function Scaled(n: int, k: int): real
    decreases if k < 0 then -k else k
  {
    if k == 0 then n as real else if k > 0 then Scaled(10 * n, k - 1) else Scaled(n, k + 1) / 10.0
  }

  function Unsigned(text: string): real {
    match SplitOnce(text, DOT)
    case None => Scaled(Decimal(text), 0)
    case Some((left, right)) => Scaled(Decimal(left + right), 0 - |right|)
  }

  function Denoted(text: string): real {
    if text != [] && text[0] == '-' then -Unsigned(text[1..]) else Unsigned(text)
  }

  // ------------------------------------------------------------------------ powers of ten

  lemma {:induction false} ScaledShift(n: int, k: int)
    ensures Scaled(10 * n, k) == Scaled(n, k + 1)
    decreases if k < 0 then -k else 0
  {
    if k < 0 {
      ScaledShift(n, k + 1);
    }
  }

  predicate AllDigits(s: string) {
    forall i :: 0 <= i < |s| ==> IsDigit(s[i])
  }

  /** Appending zeros shifts the exponent. */
  lemma {:induction false} DecimalScaled(s: string, n: nat, k: int)
    ensures Scaled(Decimal(s + Zeros(n)), k) == Scaled(Decimal(s), k + n)
    decreases n
  {
    if n == 0 {
      assert s + Zeros(0) == s;
    } else {
      assert s + Zeros(n) == (s + Zeros(n - 1)) + ['0'];
      ScaledShift(Decimal(s + Zeros(n - 1)), k);
      DecimalScaled(s, n - 1, k + 1);
    }
  }

  /** Leading zeros count for nothing. */
  lemma {:induction false} DecimalOfPadded(n: nat, s: string)
    ensures Decimal(Zeros(n) + s) == Decimal(s)
    decreases |s|, n
  {
    if s == [] {
      assert Zeros(n) + s == Zeros(n);
      if n > 0 {
        assert Zeros(n)[..n - 1] == Zeros(n - 1);
        assert Zeros(n - 1) + [] == Zeros(n - 1);
        DecimalOfPadded(n - 1, []);
      }
    } else {
      var front := s[..|s| - 1];
      assert (Zeros(n) + s)[..n + |s| - 1] == Zeros(n) + front;
      DecimalOfPadded(n, front);
    }
  }

  // ------------------------------------------------------------------------ splitting

  predicate NoDot(s: string) {
    forall i :: 0 <= i < |s| ==> s[i] != '.'
  }

  lemma {:induction false} SplitNoDot(s: string)
    requires NoDot(s)
    ensures SplitOnce(s, DOT) == None
  {
    if s != [] {
      assert s[0] != DOT[0];
      SplitNoDot(s[1..]);
    }
  }

  lemma {:induction false} SplitAtDot(left: string, right: string)
    requires NoDot(left)
    ensures SplitOnce(left + (DOT + right), DOT) == Some((left, right))
    decreases |left|
  {
    var s := left + (DOT + right);
    if left == [] {
      assert s == DOT + right && s[1..] == right;
    } else {
      assert s[0] == left[0] && s[1..] == left[1..] + (DOT + right);
      SplitAtDot(left[1..], right);
      assert [left[0]] + left[1..] == left;
    }
  }

  lemma UnsignedWhole(s: string)
    requires NoDot(s)
    ensures Unsigned(s) == Scaled(Decimal(s), 0)
  {
    SplitNoDot(s);
  }

  lemma UnsignedSplit(left: string, right: string)
    requires NoDot(left)
    ensures Unsigned(left + (DOT + right)) == Scaled(Decimal(left + right), 0 - |right|)
  {
    SplitAtDot(left, right);
  }

  // ------------------------------------------------------------------------ three branches

  lemma PaddedDecimal(zero: string, zeros: nat, digits: string)
    requires zero == ZERO
    ensures Decimal(zero + (Zeros(zeros) + digits)) == Decimal(digits)
  {
    assert zero + (Zeros(zeros) + digits) == Zeros(zeros + 1) + digits;
    DecimalOfPadded(zeros + 1, digits);
  }

  /** Digits on both sides of a point. */
  lemma PointedLayout(zero: string, right: string, digits: string)
    requires NoDot(zero) && Decimal(zero + right) == Decimal(digits)
    ensures Unsigned(zero + (DOT + right)) == Scaled(Decimal(digits), 0 - |right|)
  {
    UnsignedSplit(zero, right);
  }

  lemma LargeLayout(digits: string, zeros: nat)
    requires AllDigits(digits)
    ensures Unsigned(digits + Zeros(zeros)) == Scaled(Decimal(digits), zeros)
  {
    UnsignedWhole(digits + Zeros(zeros));
    DecimalScaled(digits, zeros, 0);
  }

  lemma CutDigits(digits: string, p: nat)
    requires AllDigits(digits) && p < |digits|
    ensures NoDot(digits[..p]) && digits[..p] + digits[p..] == digits
  {
  }

  lemma NoSign(text: string)
    ensures [] + text == text
  {
  }

  /** The text of each layout. */
  function PlainText(digits: string, zero: string, point: int): string {
    if point <= 0 then zero + (DOT + (Zeros(-point) + digits))
    else if point >= |digits| then digits + Zeros(point - |digits|)
    else digits[..point] + (DOT + digits[point..])
  }

  lemma LayoutText(unsigned: string, exponent: int)
    ensures Layout([], unsigned, exponent) == Some(PlainText(ReplaceChar(unsigned, '.', []), ZERO, exponent + 1))
  {
    NoSign(PlainText(ReplaceChar(unsigned, '.', []), ZERO, exponent + 1));
  }

  /** What each layout's text denotes. */
  lemma LayoutDenotes(digits: string, zero: string, point: int)
    requires AllDigits(digits) && zero == ZERO
    ensures Unsigned(PlainText(digits, zero, point)) == Scaled(Decimal(digits), point - |digits|)
  {
    if point <= 0 {
      PaddedDecimal(zero, -point, digits);
      PointedLayout(zero, Zeros(-point) + digits, digits);
    } else if point >= |digits| {
      LargeLayout(digits, point - |digits|);
    } else {
      CutDigits(digits, point);
      PointedLayout(digits[..point], digits[point..], digits);
    }
  }

  /** The unsigned text of any layout, from the digits without the point. */
  lemma LayoutValue(unsigned: string, exponent: int)
    requires AllDigits(ReplaceChar(unsigned, '.', []))
    ensures var digits := ReplaceChar(unsigned, '.', []);
            && Layout([], unsigned, exponent).Some?
            && Unsigned(Layout([], unsigned, exponent).value) == Scaled(Decimal(digits), exponent + 1 - |digits|)
  {
    LayoutText(unsigned, exponent);
    LayoutDenotes(ReplaceChar(unsigned, '.', []), ZERO, exponent + 1);
  }

  // ------------------------------------------------------------------------- trimming

  lemma {:induction false} TrimZeros(front: string, s: string) returns (kept: string, n: nat)
    requires front != [] && front[|front| - 1] == '.'
    ensures s == kept + Zeros(n) && (kept == [] || kept[|kept| - 1] != '0')
    ensures TrimEndChar(front + s, '0') == front + kept
    decreases |s|
  {
    var all := front + s;
    if s == [] {
      assert all == front;
      return [], 0;
    } else if s[|s| - 1] == '0' {
      assert all[..|all| - 1] == front + s[..|s| - 1];
      var m;
      kept, m := TrimZeros(front, s[..|s| - 1]);
      n := m + 1;
      assert s == s[..|s| - 1] + ['0'];
      assert Zeros(n) == Zeros(m) + ['0'];
    } else {
      assert all[|all| - 1] == s[|s| - 1];
      assert s + Zeros(0) == s;
      return s, 0;
    }
  }

  lemma {:induction false} RemoveDots(s: string)
    requires NoDot(s)
    ensures ReplaceChar(s, '.', []) == s
  {
    if s != [] {
      RemoveDots(s[1..]);
      assert s == [s[0]] + s[1..];
    }
  }

  lemma RemoveDotBetween(left: string, right: string)
    requires NoDot(left) && NoDot(right)
    ensures ReplaceChar(left + (DOT + right), '.', []) == left + right
  {
    FlatMapAppend(left, DOT + right, x => if x == '.' then [] else [x]);
    FlatMapAppend(DOT, right, x => if x == '.' then [] else [x]);
    RemoveDots(left);
    RemoveDots(right);
    assert ReplaceChar(DOT, '.', []) == [];
  }

  /** Trimming drops only trailing zeros of the fraction, and the point when nothing follows it. */
  lemma TrimmedDigits(lead: char, fraction: string) returns (n: nat)
    requires IsDigit(lead) && AllDigits(fraction)
    ensures var digits := ReplaceChar(Trimmed(lead, fraction), '.', []);
            digits != [] && AllDigits(digits) && digits + Zeros(n) == [lead] + fraction
  {
    var front := [lead] + DOT;
    assert [lead] + (DOT + fraction) == front + fraction;
    var kept;
    kept, n := TrimZeros(front, fraction);
    if kept == [] {
      assert front + kept == front && front[..1] == [lead];
      assert TrimEndChar(front, '.') == TrimEndChar([lead], '.');
      RemoveDots([lead]);
    } else {
      var all := front + kept;
      assert all[|all| - 1] == kept[|kept| - 1] && kept[|kept| - 1] == fraction[|kept| - 1];
      assert all == [lead] + (DOT + kept);
      assert forall i :: 0 <= i < |kept| ==> kept[i] == fraction[i];
      RemoveDotBetween([lead], kept);
    }
  }

  // ------------------------------------------------------------------------ the theorem

  function Signed(negative: bool, x: real): real {
    if negative then -x else x
  }

  function Sign(negative: bool): string {
    if negative then "-" else []
  }

  lemma LayoutShape(unsigned: string, exponent: int)
    requires AllDigits(ReplaceChar(unsigned, '.', [])) && ReplaceChar(unsigned, '.', []) != []
    ensures var plain := Layout([], unsigned, exponent);
            plain.Some? && plain.value != [] && plain.value[0] != '-'
            && Layout("-", unsigned, exponent) == Some("-" + plain.value)
  {
    var digits := ReplaceChar(unsigned, '.', []);
    var plain := Layout([], unsigned, exponent).value;
    assert plain[0] == (if exponent + 1 <= 0 then '0' else digits[0]);
    var signed := Layout("-", unsigned, exponent).value;
    assert |signed| == 1 + |plain| && signed == "-" + plain;
  }

  lemma SignIsKept(negative: bool, unsigned: string, exponent: int)
    requires AllDigits(ReplaceChar(unsigned, '.', [])) && ReplaceChar(unsigned, '.', []) != []
    ensures Layout(Sign(negative), unsigned, exponent).Some? && Layout([], unsigned, exponent).Some?
    ensures Denoted(Layout(Sign(negative), unsigned, exponent).value)
         == Signed(negative, Unsigned(Layout([], unsigned, exponent).value))
  {
    LayoutShape(unsigned, exponent);
    var plain := Layout([], unsigned, exponent).value;
    assert ("-" + plain)[1..] == plain;
  }

  /** Whatever the digits and the exponent, the printed text denotes exactly the scientific form's
      value, the digits scaled by 10^(exponent - digits + 1), and no fallback is taken. */
  lemma LayoutPreservesValue(negative: bool, lead: char, fraction: string, exponent: int)
    requires IsDigit(lead) && AllDigits(fraction)
    ensures var text := Layout(Sign(negative), Trimmed(lead, fraction), exponent);
            && text.Some?
            && Denoted(text.value) == Signed(negative, Scaled(Decimal([lead] + fraction), exponent - |fraction|))
  {
    var unsigned := Trimmed(lead, fraction);
    var digits := ReplaceChar(unsigned, '.', []);
    var n := TrimmedDigits(lead, fraction);
    assert |digits| + n == 1 + |fraction|;
    LayoutValue(unsigned, exponent);
    DecimalScaled(digits, n, exponent - |fraction|);
    SignIsKept(negative, unsigned, exponent);
  }
}
