/**
 What operators and accesses evaluate to (crates/expressions/src: evaluator.rs, types.rs, access.rs), stated on
 the operands' values and without the evaluator's own helpers.
 */
module Meaning {
  import opened Text
  import opened Syntax
  import opened Values
  import opened Functions
  import opened Evaluator

  // ------------------------------------------------------------------------ coercions

  /** A value as a number and as text. */
  lemma CoercionTable(v: Value, host: Host)
    ensures v == Null ==> ToNumber(v, host) == Finite(0.0) && ToText(v, host) == ""
    ensures v == Bool(false) ==> ToNumber(v, host) == Finite(0.0) && ToText(v, host) == "false"
    ensures v == Bool(true) ==> ToNumber(v, host) == Finite(1.0) && ToText(v, host) == "true"
    ensures v.Num? ==> ToNumber(v, host) == v.n && ToText(v, host) == host.formatNumber(v.n)
    ensures v.Str? ==> ToNumber(v, host) == host.parseNumber(v.text) && ToText(v, host) == v.text
    ensures v.Array? ==> ToNumber(v, host) == NaN && ToText(v, host) == "Array"
    ensures v.Object? ==> ToNumber(v, host) == NaN && ToText(v, host) == "Object"
  {
  }

  // ------------------------------------------------------------------------- comparisons

  /** Minus infinity, the finite numbers, infinity. */
  function Rank(n: Number): int {
    if !n.Infinity? then 0 else if n.negative then -1 else 1
  }

  /** The order of the extended reals; NaN is not in it. */
  predicate NumberBelow(a: Number, b: Number) {
    a != NaN && b != NaN && (Rank(a) < Rank(b) || (a.Finite? && b.Finite? && a.value < b.value))
  }

  /** The lexicographic order: a proper prefix, or smaller where they first differ. */
  ghost predicate UnitsBelow(a: seq<nat>, b: seq<nat>) {
    exists k: nat :: BelowAt(a, b, k)
  }

  predicate BelowAt(a: seq<nat>, b: seq<nat>, k: nat) {
    k <= |a| && k < |b| && a[..k] == b[..k] && (k == |a| || a[k] < b[k])
  }

  lemma {:induction false} CompareUnitsMeaning(a: seq<nat>, b: seq<nat>)
    ensures CompareUnits(a, b) == Equal <==> a == b
    ensures CompareUnits(a, b) == Less <==> UnitsBelow(a, b)
    decreases |a|
  {
    if a == [] || b == [] || a[0] != b[0] {
      assert a == [] && b != [] ==> BelowAt(a, b, 0);
      assert a != [] && b != [] && a[0] < b[0] ==> BelowAt(a, b, 0);
      forall k: nat | BelowAt(a, b, k) ensures k == 0 {
      }
    } else {
      CompareUnitsMeaning(a[1..], b[1..]);
      assert a == [a[0]] + a[1..] && b == [b[0]] + b[1..];
      TailBelow(a, b);
    }
  }

  lemma TailBelow(a: seq<nat>, b: seq<nat>)
    requires a != [] && b != [] && a[0] == b[0]
    ensures UnitsBelow(a, b) <==> UnitsBelow(a[1..], b[1..])
  {
    if k: nat :| BelowAt(a, b, k) {
      assert k > 0;
      assert a[1..][..k - 1] == a[..k][1..] && b[1..][..k - 1] == b[..k][1..];
      assert BelowAt(a[1..], b[1..], k - 1);
    }
    if k: nat :| BelowAt(a[1..], b[1..], k) {
      assert a[..k + 1] == [a[0]] + a[1..][..k] && b[..k + 1] == [b[0]] + b[1..][..k];
      assert BelowAt(a, b, k + 1);
    }
  }

  lemma {:induction false} CompareUnitsFlips(a: seq<nat>, b: seq<nat>)
    ensures CompareUnits(a, b) == Greater <==> CompareUnits(b, a) == Less
    decreases |a|
  {
    if a != [] && b != [] && a[0] == b[0] {
      CompareUnitsFlips(a[1..], b[1..]);
    }
  }

  /** Texts by their upper-cased units, collections by identity, everything else by number. */
  predicate Same(a: Value, b: Value, host: Host) {
    if a.Str? && b.Str? then host.upper(a.text) == host.upper(b.text)
    else if (a.Array? && b.Array?) || (a.Object? && b.Object?) then a.id == b.id
    else ToNumber(a, host) != NaN && ToNumber(a, host) == ToNumber(b, host)
  }

  ghost predicate Below(a: Value, b: Value, host: Host) {
    if a.Str? && b.Str? then UnitsBelow(host.upper(a.text), host.upper(b.text))
    else NumberBelow(ToNumber(a, host), ToNumber(b, host))
  }

  lemma ComparesNumbers(a: Number, b: Number)
    ensures CompareNumbers(a, b) == Some(Equal) <==> a != NaN && a == b
    ensures CompareNumbers(a, b) == Some(Less) <==> NumberBelow(a, b)
    ensures CompareNumbers(a, b) == Some(Greater) <==> NumberBelow(b, a)
  {
  }

  lemma ComparesValues(a: Value, b: Value, host: Host)
    ensures LooseEq(a, b, host) <==> Same(a, b, host)
    ensures Ordered(a, b, Less, host) <==> Below(a, b, host)
    ensures Ordered(a, b, Greater, host) <==> Below(b, a, host)
  {
    ComparesNumbers(ToNumber(a, host), ToNumber(b, host));
    if a.Str? && b.Str? {
      CompareUnitsMeaning(host.upper(a.text), host.upper(b.text));
      CompareUnitsMeaning(host.upper(b.text), host.upper(a.text));
      CompareUnitsFlips(host.upper(a.text), host.upper(b.text));
    }
  }

  ghost predicate Holds(op: BinaryOperator, a: Value, b: Value, host: Host) {
    match op
    case Eq => Same(a, b, host)
    case Neq => !Same(a, b, host)
    case Lt => Below(a, b, host)
    case Gt => Below(b, a, host)
    case Le => Same(a, b, host) || Below(a, b, host)
    case Ge => Same(a, b, host) || Below(b, a, host)
    case _ => false
  }

  lemma CompareHolds(op: BinaryOperator, a: Value, b: Value, host: Host)
    requires op != And && op != Or
    ensures Compare(op, a, b, host) <==> Holds(op, a, b, host)
  {
    ComparesValues(a, b, host);
  }

  /** Every comparison, on any two values. */
  lemma ComparisonMeaning(op: BinaryOperator, l: Expr, r: Expr, a: Value, b: Value, path: Path, host: Host)
    requires op != And && op != Or
    requires Eval(l, path + [0], host) == Ok(a) && Eval(r, path + [1], host) == Ok(b)
    ensures Eval(BinaryOp(op, l, r), path, host) == Ok(Bool(Holds(op, a, b, host)))
  {
    CompareHolds(op, a, b, host);
  }

  /** Two texts, or two numbers other than NaN, are in exactly one of the three relations; NaN is in none. */
  lemma Trichotomy(a: Value, b: Value, host: Host)
    requires (a.Str? && b.Str?) || (a.Num? && b.Num?)
    ensures var same, below, above := Same(a, b, host), Below(a, b, host), Below(b, a, host);
            if a == Num(NaN) || b == Num(NaN) then !same && !below && !above
            else (same || below || above) && !(same && below) && !(same && above) && !(below && above)
  {
    if a.Str? {
      var x, y := host.upper(a.text), host.upper(b.text);
      CompareUnitsMeaning(x, y);
      CompareUnitsMeaning(y, x);
      CompareUnitsFlips(x, y);
      CompareUnitsFlips(y, x);
    }
  }

  // --------------------------------------------------------------------------- truth

  predicate IsFalsy(v: Value) {
    v == Null || v == Bool(false) || v == Num(NaN) || v == Num(Finite(0.0)) || v == Str("")
  }

  /** Negation, and the two operators that may leave their right side unevaluated. */
  lemma LogicMeaning(l: Expr, r: Expr, a: Value, path: Path, host: Host)
    requires Eval(l, path + [0], host) == Ok(a)
    ensures Eval(Not(l), path, host) == Ok(Bool(IsFalsy(a)))
    ensures Eval(BinaryOp(And, l, r), path, host) == if IsFalsy(a) then Ok(a) else Eval(r, path + [1], host)
    ensures Eval(BinaryOp(Or, l, r), path, host) == if IsFalsy(a) then Eval(r, path + [1], host) else Ok(a)
  {
  }

  // -------------------------------------------------------------------------- failures

  /** What fails first, from the left, is reported. */
  lemma LeftFailure(op: BinaryOperator, l: Expr, r: Expr, property: string, f: Failure, path: Path, host: Host)
    requires Eval(l, path + [0], host) == Err(f)
    ensures Eval(Not(l), path, host) == Err(f) && Eval(BinaryOp(op, l, r), path, host) == Err(f)
    ensures Eval(PropertyAccess(l, property), path, host) == Err(f) && Eval(WildcardAccess(l), path, host) == Err(f)
    ensures Eval(IndexAccess(l, r), path, host) == Err(f)
  {
  }

  lemma RightFailure(op: BinaryOperator, l: Expr, r: Expr, a: Value, f: Failure, path: Path, host: Host)
    requires Eval(l, path + [0], host) == Ok(a) && Eval(r, path + [1], host) == Err(f)
    ensures op != And && op != Or ==> Eval(BinaryOp(op, l, r), path, host) == Err(f)
    ensures !IsPrimitive(a) ==> Eval(IndexAccess(l, r), path, host) == Err(f)
  {
  }

  // -------------------------------------------------------------------------- accesses

  /** Position `n` is the first whose key is so named. */
  predicate FirstAt(entries: seq<Entry>, named: string -> bool, n: nat) {
    n < |entries| && named(entries[n].key) && forall m :: 0 <= m < n ==> !named(entries[m].key)
  }

  ghost predicate IsFirst(entries: seq<Entry>, named: string -> bool, w: Value) {
    exists n: nat :: FirstAt(entries, named, n) && entries[n].item == w
  }

  lemma FirstIsHead(entries: seq<Entry>, named: string -> bool, w: Value)
    requires entries != [] && named(entries[0].key)
    ensures IsFirst(entries, named, w) <==> entries[0].item == w
  {
    assert FirstAt(entries, named, 0);
  }

  lemma FirstIsLater(entries: seq<Entry>, named: string -> bool, w: Value)
    requires entries != [] && !named(entries[0].key)
    ensures IsFirst(entries, named, w) <==> IsFirst(entries[1..], named, w)
  {
    var rest := entries[1..];
    if n: nat :| FirstAt(entries, named, n) && entries[n].item == w {
      assert forall m :: 0 <= m < n - 1 ==> rest[m] == entries[m + 1];
      assert FirstAt(rest, named, n - 1);
    }
    if n: nat :| FirstAt(rest, named, n) && rest[n].item == w {
      assert forall m :: 1 <= m < n + 1 ==> entries[m] == rest[m - 1];
      assert FirstAt(entries, named, n + 1);
    }
  }

  /** The names equal to this one when upper-cased. */
  function Uppercased(key: string, host: Host): string -> bool {
    k => host.upper(k) == host.upper(key)
  }

  /** The names equal to this one but for the case of ASCII letters. */
  function Named(name: string): string -> bool {
    k => SameName(k, name)
  }

  /** The item whose position is the index without its fraction. */
  ghost predicate IsItemAt(items: seq<Value>, n: Number, w: Value) {
    n.Finite? && exists k: nat :: k < |items| && items[k] == w && k <= 0x7fff_ffff
                                  && k as real <= n.value < k as real + 1.0
  }

  /** What an index finds in a value. */
  ghost predicate Finds(v: Value, index: Value, host: Host, w: Value) {
    || (v.Object? && IsPrimitive(index) && IsFirst(v.entries, Uppercased(ToText(index, host), host), w))
    || (v.Array? && IsItemAt(v.items, ToNumber(index, host), w))
  }

  lemma {:induction false} FindEntryIff(entries: seq<Entry>, key: string, host: Host, w: Value)
    ensures FindEntry(entries, key, host) == Some(w) <==> IsFirst(entries, Uppercased(key, host), w)
    decreases |entries|
  {
    if entries != [] {
      CompareUnitsMeaning(host.upper(entries[0].key), host.upper(key));
      FindEntryIff(entries[1..], key, host, w);
      if Uppercased(key, host)(entries[0].key) {
        FirstIsHead(entries, Uppercased(key, host), w);
      } else {
        FirstIsLater(entries, Uppercased(key, host), w);
      }
    }
  }

  lemma ItemAtIff(items: seq<Value>, n: Number, w: Value, host: Host)
    ensures Lookup(Array(Given(0), items, false), Num(n), host) == Some(w) <==> IsItemAt(items, n, w)
  {
    if n.Finite? && n.value >= 0.0 {
      assert n.value.Floor as real <= n.value < n.value.Floor as real + 1.0;
    }
  }

  lemma LookupIff(v: Value, index: Value, host: Host, w: Value)
    ensures Lookup(v, index, host) == Some(w) <==> Finds(v, index, host, w)
  {
    match v
    case Object(_, entries) => FindEntryIff(entries, ToText(index, host), host, w);
    case Array(_, items, _) => ItemAtIff(items, ToNumber(index, host), w, host);
    case _ =>
  }

  /** Indexing: what the index finds, and null when it finds nothing; a primitive has nothing to find, and its
      index is not even evaluated. */
  lemma IndexMeaning(base: Expr, index: Expr, v: Value, i: Value, path: Path, host: Host, w: Value)
    requires Eval(base, path + [0], host) == Ok(v) && !(v.Array? && v.filtered)
    ensures IsPrimitive(v) ==> Eval(IndexAccess(base, index), path, host) == Ok(Null)
    ensures Eval(index, path + [1], host) == Ok(i) && Finds(v, i, host, w) ==>
              Eval(IndexAccess(base, index), path, host) == Ok(w)
    ensures Eval(index, path + [1], host) == Ok(i) && (forall x :: !Finds(v, i, host, x)) ==>
              Eval(IndexAccess(base, index), path, host) == Ok(Null)
  {
    LookupIff(v, i, host, w);
    if Lookup(v, i, host).Some? {
      LookupIff(v, i, host, Lookup(v, i, host).value);
    }
  }

  /** A property is an index by its name. */
  lemma PropertyMeaning(base: Expr, property: string, v: Value, path: Path, host: Host, w: Value)
    requires Eval(base, path + [0], host) == Ok(v) && !(v.Array? && v.filtered)
    ensures Finds(v, Str(property), host, w) ==> Eval(PropertyAccess(base, property), path, host) == Ok(w)
    ensures (forall x :: !Finds(v, Str(property), host, x)) ==>
              Eval(PropertyAccess(base, property), path, host) == Ok(Null)
  {
    LookupIff(v, Str(property), host, w);
    if Lookup(v, Str(property), host).Some? {
      LookupIff(v, Str(property), host, Lookup(v, Str(property), host).value);
    }
  }

  lemma {:induction false} EntryValuesAre(entries: seq<Entry>)
    ensures |EntryValues(entries)| == |entries|
    ensures forall k :: 0 <= k < |entries| ==> EntryValues(entries)[k] == entries[k].item
  {
    if entries != [] {
      EntryValuesAre(entries[1..]);
    }
  }

  /** A wildcard: every member in order, in an array that later accesses look through. */
  lemma WildcardMeaning(base: Expr, v: Value, path: Path, host: Host)
    requires Eval(base, path + [0], host) == Ok(v) && !(v.Array? && v.filtered)
    ensures var r := Eval(WildcardAccess(base), path, host);
            && r.Ok? && r.value.Array? && r.value.filtered && r.value.id == Made(path)
            && (IsPrimitive(v) ==> r.value.items == [])
            && (v.Array? ==> r.value.items == v.items)
            && (v.Object? ==> |r.value.items| == |v.entries|)
            && (v.Object? ==> forall k :: 0 <= k < |v.entries| ==> r.value.items[k] == v.entries[k].item)
  {
    if v.Object? {
      EntryValuesAre(v.entries);
    }
  }

  /** An access through a wildcard: each item gives what the index finds in it, or nothing. */
  lemma ThroughWildcard(base: Expr, property: string, v: Value, path: Path, host: Host,
                        before: seq<Value>, item: Value, after: seq<Value>, w: Value)
    requires Eval(base, path + [0], host) == Ok(v) && v.Array? && v.filtered && v.items == before + ([item] + after)
    ensures var index := Some(Str(property));
            var ends := (Projected(before, index, host), Projected(after, index, host));
            && (Finds(item, Str(property), host, w) ==>
                  Eval(PropertyAccess(base, property), path, host)
                  == Ok(Array(Made(path), ends.0 + ([w] + ends.1), true)))
            && ((forall x :: !Finds(item, Str(property), host, x)) ==>
                  Eval(PropertyAccess(base, property), path, host)
                  == Ok(Array(Made(path), ends.0 + ends.1, true)))
  {
    var index := Some(Str(property));
    ProjectionIsPointwise(before, item, after, index, host);
    LookupIff(item, Str(property), host, w);
    if Lookup(item, Str(property), host).Some? {
      LookupIff(item, Str(property), host, Lookup(item, Str(property), host).value);
    } else {
      assert [] + Projected(after, index, host) == Projected(after, index, host);
    }
  }

  // --------------------------------------------------------------------------- contexts

  predicate SameLetter(a: char, b: char) {
    a == b || (IsAlpha(a) && IsAlpha(b) && (a as int == b as int + 32 || b as int == a as int + 32))
  }

  /** Equal but for the case of ASCII letters. */
  predicate SameName(a: string, b: string) {
    |a| == |b| && forall i :: 0 <= i < |a| ==> SameLetter(a[i], b[i])
  }

  lemma LowerIff(a: string, b: string)
    ensures Lower(a) == Lower(b) <==> SameName(a, b)
  {
    if Lower(a) == Lower(b) {
      assert |a| == |Lower(a)| == |Lower(b)| == |b|;
      forall i | 0 <= i < |a| ensures SameLetter(a[i], b[i]) {
        assert Lower(a)[i] == Lower(b)[i];
      }
    }
  }

  /** A context is the first entry of that name, in any case, and null if there is none. */
  lemma ContextMeaning(name: string, path: Path, host: Host, v: Value)
    ensures IsFirst(host.contexts, Named(name), v) ==> Eval(Context(name), path, host) == Ok(v)
    ensures (forall w :: !IsFirst(host.contexts, Named(name), w)) ==> Eval(Context(name), path, host) == Ok(Null)
  {
    FindContextIff(host.contexts, name, v);
    if FindContext(host.contexts, name).Some? {
      FindContextIff(host.contexts, name, FindContext(host.contexts, name).value);
    }
  }

  lemma {:induction false} FindContextIff(contexts: seq<Entry>, name: string, v: Value)
    ensures FindContext(contexts, name) == Some(v) <==> IsFirst(contexts, Named(name), v)
    decreases |contexts|
  {
    if contexts != [] {
      LowerIff(contexts[0].key, name);
      FindContextIff(contexts[1..], name, v);
      if SameName(contexts[0].key, name) {
        FirstIsHead(contexts, Named(name), v);
      } else {
        FirstIsLater(contexts, Named(name), v);
      }
    }
  }
}
