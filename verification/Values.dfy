/**
 Values, coercions and indexing (crates/expressions/src: types.rs and access.rs). What the standard
 library decides (parsing and rendering a float, Unicode upper-casing) is a parameter.
 */
module Values {
  import opened Text
  import opened Syntax

  datatype JobStatus = Succeeded | Failed | Cancelled

  datatype Outcome = Returned(value: Value) | Raised(message: string)

  /** The evaluation context and the library behind it. */
  datatype Host = Host(
    contexts: seq<Entry>,
    status: JobStatus,
    parseNumber: string -> Number,
    formatNumber: Number -> string,
    upper: string -> seq<nat>,
    foreign: (seq<nat>, string, seq<Value>) -> Outcome)

  // ------------------------------------------------------------------------ coercions

  predicate IsPrimitive(v: Value) {
    !v.Array? && !v.Object?
  }

  predicate IsTruthy(v: Value) {
    match v
    case Null => false
    case Bool(b) => b
    case Num(n) => n != NaN && n != Finite(0.0)
    case Str(text) => text != []
    case Array(_, _, _) => true
    case Object(_, _) => true
  }

  function ToText(v: Value, host: Host): string {
    match v
    case Null => []
    case Bool(b) => if b then "true" else "false"
    case Num(n) => host.formatNumber(n)
    case Str(text) => text
    case Array(_, _, _) => "Array"
    case Object(_, _) => "Object"
  }

  function ToNumber(v: Value, host: Host): Number {
    match v
    case Null => Finite(0.0)
    case Bool(b) => if b then Finite(1.0) else Finite(0.0)
    case Num(n) => n
    case Str(text) => host.parseNumber(text)
    case Array(_, _, _) => NaN
    case Object(_, _) => NaN
  }

  // ---------------------------------------------------------------------- comparisons

  datatype Ordering = Less | Equal | Greater

  /** `partial_cmp` on floats. */
  function CompareNumbers(a: Number, b: Number): Option<Ordering> {
    match (a, b)
    case (NaN, _) => None
    case (_, NaN) => None
    case (Finite(x), Finite(y)) => Some(if x < y then Less else if x == y then Equal else Greater)
    case (Infinity(x), Infinity(y)) => Some(if x == y then Equal else if x then Less else Greater)
    case (Infinity(x), Finite(_)) => Some(if x then Less else Greater)
    case (Finite(_), Infinity(y)) => Some(if y then Greater else Less)
  }

  function CompareUnits(a: seq<nat>, b: seq<nat>): Ordering {
    if a == [] then if b == [] then Equal else Less
    else if b == [] then Greater
    else if a[0] < b[0] then Less
    else if a[0] > b[0] then Greater
    else CompareUnits(a[1..], b[1..])
  }

  function OrdinalCompare(a: string, b: string, host: Host): Ordering {
    CompareUnits(host.upper(a), host.upper(b))
  }

  predicate FloatEq(a: Number, b: Number) {
    CompareNumbers(a, b) == Some(Equal)
  }

  /** `loose_eq`: arrays and objects by identity, mixed kinds as numbers. */
  predicate LooseEq(a: Value, b: Value, host: Host) {
    match (a, b)
    case (Null, Null) => true
    case (Bool(x), Bool(y)) => x == y
    case (Num(x), Num(y)) => FloatEq(x, y)
    case (Str(x), Str(y)) => OrdinalCompare(x, y, host) == Equal
    case (Array(i, _, _), Array(j, _, _)) => i == j
    case (Object(i, _), Object(j, _)) => i == j
    case (_, _) => FloatEq(ToNumber(a, host), ToNumber(b, host))
  }

  predicate Ordered(a: Value, b: Value, order: Ordering, host: Host) {
    match (a, b)
    case (Str(x), Str(y)) => OrdinalCompare(x, y, host) == order
    case (Null, Null) => false
    case (_, _) => CompareNumbers(ToNumber(a, host), ToNumber(b, host)) == Some(order)
  }

  predicate Compare(op: BinaryOperator, a: Value, b: Value, host: Host)
    requires op != And && op != Or
  {
    match op
    case Eq => LooseEq(a, b, host)
    case Neq => !LooseEq(a, b, host)
    case Lt => Ordered(a, b, Less, host)
    case Le => LooseEq(a, b, host) || Ordered(a, b, Less, host)
    case Gt => Ordered(a, b, Greater, host)
    case Ge => LooseEq(a, b, host) || Ordered(a, b, Greater, host)
  }

  // ------------------------------------------------------------------------- indexing

  function FindEntry(entries: seq<Entry>, key: string, host: Host): Option<Value> {
    if entries == [] then None
    else if OrdinalCompare(entries[0].key, key, host) == Equal then Some(entries[0].item)
    else FindEntry(entries[1..], key, host)
  }

  const I32_MAX: int := 0x7fff_ffff

  /** `lookup`. */
  function Lookup(v: Value, index: Value, host: Host): Option<Value> {
    match v
    case Object(_, entries) => if IsPrimitive(index) then FindEntry(entries, ToText(index, host), host) else None
    case Array(_, items, _) =>
      (match ToNumber(index, host)
       case Finite(x) =>
         if x < 0.0 || x.Floor > I32_MAX then None
         else if x.Floor < |items| then Some(items[x.Floor]) else None
       case _ => None)
    case _ => None
  }

  function EntryValues(entries: seq<Entry>): seq<Value> {
    if entries == [] then [] else [entries[0].item] + EntryValues(entries[1..])
  }

  /** `append_values`: the members of an array or object. */
  function Members(v: Value): seq<Value> {
    match v
    case Array(_, items, _) => items
    case Object(_, entries) => EntryValues(entries)
    case _ => []
  }

  /** What one item contributes: its members under a wildcard, else what the index finds in it, if anything. */
  function Selected(item: Value, index: Option<Value>, host: Host): seq<Value> {
    match index
    case None => Members(item)
    case Some(i) => match Lookup(item, i, host)
      case None => []
      case Some(found) => [found]
  }

  /** One level of projection over a wildcard result. */
  function Projected(items: seq<Value>, index: Option<Value>, host: Host): seq<Value> {
    if items == [] then []
    else Projected(items[..|items| - 1], index, host) + Selected(items[|items| - 1], index, host)
  }

  /** `access`: a new array gets the identity `id`. */
  function Access(v: Value, index: Option<Value>, id: Ref, host: Host): Value {
    if v.Array? && v.filtered then Array(id, Projected(v.items, index, host), true)
    else match index
      case Some(i) => (match Lookup(v, i, host) case None => Null case Some(found) => found)
      case None => Array(id, Members(v), true)
  }

  /** The projection loop of `access`. */
  method ProjectFiltered(items: seq<Value>, index: Option<Value>, host: Host) returns (result: seq<Value>)
    ensures result == Projected(items, index, host)
  {
    result := [];
    var i := 0;
    while i < |items|
      invariant 0 <= i <= |items|
      invariant result == Projected(items[..i], index, host)
    {
      assert items[..i + 1][..i] == items[..i];
      if index.Some? {
        var found := Lookup(items[i], index.value, host);
        if found.Some? {
          result := result + [found.value];
        }
      } else {
        result := result + Members(items[i]);
      }
      i := i + 1;
    }
    assert items[..i] == items;
  }

  lemma ProjectedSnoc(items: seq<Value>, last: Value, index: Option<Value>, host: Host)
    ensures Projected(items + [last], index, host) == Projected(items, index, host) + Selected(last, index, host)
  {
    assert (items + [last])[..|items|] == items;
  }

  lemma {:induction false} ProjectedConcat(a: seq<Value>, b: seq<Value>, index: Option<Value>, host: Host)
    ensures Projected(a + b, index, host) == Projected(a, index, host) + Projected(b, index, host)
    decreases |b|
  {
    if b == [] {
      assert a + b == a;
    } else {
      var front, last := b[..|b| - 1], b[|b| - 1];
      assert b == front + [last];
      ConcatAssoc(a, front, [last]);
      ProjectedConcat(a, front, index, host);
      ProjectedSnoc(a + front, last, index, host);
      ProjectedSnoc(front, last, index, host);
      ConcatAssoc(Projected(a, index, host), Projected(front, index, host), Selected(last, index, host));
    }
  }

  lemma ProjectedOne(item: Value, index: Option<Value>, host: Host)
    ensures Projected([item], index, host) == Selected(item, index, host)
  {
    assert [item][..0] == [];
    assert Projected([], index, host) == [];
  }

  /** What a projection selects: each item's own selection, in order, whatever the others are. */
  lemma ProjectionIsPointwise(before: seq<Value>, item: Value, after: seq<Value>, index: Option<Value>, host: Host)
    ensures Projected(before + ([item] + after), index, host)
         == Projected(before, index, host) + (Selected(item, index, host) + Projected(after, index, host))
  {
    ProjectedConcat(before, [item] + after, index, host);
    ProjectedConcat([item], after, index, host);
    ProjectedOne(item, index, host);
  }
}
