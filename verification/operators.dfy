/**
 * The Python operators the instructions apply to interpreter values:
 * truthiness (`not v`), `+`, `int(v)` and the orderings `<`, `>`, `>=`.
 * Only the operand types the model represents are covered; floats are not
 * values of this model.
 */
module PyOps {
  import opened Wrappers
  import opened Runtime

  /**
   * `bool(v)`. A dataclass instance defines neither `__bool__` nor `__len__`,
   * so every `ASObject`, `undefined` and an empty `ASString` among them, is
   * true.
   */
  predicate Truthy(v: Value) {
    match v
    case Null => false
    case Bool(b) => b
    case Int(i) => i != 0
    case Str(s) => s != []
    case List(items) => items != []
    case _ => true
  }

  /** The integer an `int` or `bool` stands for. */
  function Number(v: Value): Option<int> {
    IndexOf(v)
  }

  /** `a + b`: numeric addition of ints and booleans, concatenation of two strings or two lists. */
  function Add(a: Value, b: Value): (r: Result<Value>)
    ensures r.Err? ==> r.error == TypeError
    ensures r.Ok? && r.value.Int? ==>
      Number(a).Some? && Number(b).Some? && r.value.i == Number(a).value + Number(b).value
    ensures r.Ok? && r.value.Str? ==> a.Str? && b.Str? && r.value.s == a.s + b.s
    ensures r.Ok? && r.value.List? ==> a.List? && b.List? && r.value.items == a.items + b.items
  {
    if Number(a).Some? && Number(b).Some? then Ok(Int(Number(a).value + Number(b).value))
    else if a.Str? && b.Str? then Ok(Str(a.s + b.s))
    else if a.List? && b.List? then Ok(List(a.items + b.items))
    else Err(TypeError)
  }

  /**
   * `int(v)`. Parsing a string (`int('12')`) is left abstract; `None`, lists
   * and objects have no integer conversion.
   */
  function IntOf(v: Value): (r: Result<int>)
    ensures r.Ok? <==> Number(v).Some?
    ensures r.Ok? ==> r.value == Number(v).value
    ensures v.Str? ==> r == Err(Unmodelled)
  {
    match v
    case Int(i) => Ok(i)
    case Bool(b) => Ok(if b then 1 else 0)
    case Str(_) => Err(Unmodelled)
    case _ => Err(TypeError)
  }

  /** Python's string order: lexicographic by code point, a proper prefix first. */
  function CompareStrings(s: string, t: string): (c: int)
    ensures -1 <= c <= 1
  {
    if s == [] && t == [] then 0
    else if s == [] then -1
    else if t == [] then 1
    else if s[0] < t[0] then -1
    else if s[0] > t[0] then 1
    else CompareStrings(s[1..], t[1..])
  }

  function Sign(x: int): int {
    if x < 0 then -1 else if x > 0 then 1 else 0
  }

  /**
   * The outcome of comparing `a` with `b`: -1, 0 or 1. Numbers compare by
   * value and strings lexicographically; comparing lists element by element
   * is left abstract; every other pair has no order.
   */
  function Compare(a: Value, b: Value): (r: Result<int>)
    ensures r.Ok? ==> -1 <= r.value <= 1
    ensures r.Err? ==> r.error in {TypeError, Unmodelled}
  {
    if Number(a).Some? && Number(b).Some? then Ok(Sign(Number(a).value - Number(b).value))
    else if a.Str? && b.Str? then Ok(CompareStrings(a.s, b.s))
    else if a.List? && b.List? then Err(Unmodelled)
    else Err(TypeError)
  }

  /** `a < b`. */
  function Less(a: Value, b: Value): Result<bool> {
    var c :- Compare(a, b);
    Ok(c < 0)
  }

  /** `a > b`. */
  function Greater(a: Value, b: Value): Result<bool> {
    var c :- Compare(a, b);
    Ok(c > 0)
  }

  /** `a >= b`. */
  function GreaterEqual(a: Value, b: Value): Result<bool> {
    var c :- Compare(a, b);
    Ok(c >= 0)
  }

  /** Swapping the operands of a string comparison flips its outcome. */
  lemma {:induction false} CompareStringsFlips(s: string, t: string)
    ensures CompareStrings(t, s) == -CompareStrings(s, t)
    decreases |s|
  {
    if s != [] && t != [] && s[0] == t[0] {
      CompareStringsFlips(s[1..], t[1..]);
    }
  }

  /** Two strings compare equal exactly when they are the same string. */
  lemma {:induction false} CompareStringsEqual(s: string, t: string)
    ensures CompareStrings(s, t) == 0 <==> s == t
    decreases |s|
  {
    if s != [] && t != [] && s[0] == t[0] {
      CompareStringsEqual(s[1..], t[1..]);
      assert s == [s[0]] + s[1..] && t == [t[0]] + t[1..];
    }
  }

  /** `a > b` is `b < a`, and `a >= b` is `not (a < b)`, for every pair the model orders. */
  lemma CompareSymmetry(a: Value, b: Value)
    ensures Greater(a, b) == Less(b, a)
    ensures Less(a, b).Ok? ==> GreaterEqual(a, b) == Ok(!Less(a, b).value)
    ensures Less(a, b).Err? ==> GreaterEqual(a, b) == Less(a, b)
  {
    if a.Str? && b.Str? {
      CompareStringsFlips(a.s, b.s);
    }
  }

  /** On numbers the three orderings are the mathematical ones. */
  lemma NumericOrder(a: Value, b: Value)
    requires Number(a).Some? && Number(b).Some?
    ensures Less(a, b) == Ok(Number(a).value < Number(b).value)
    ensures Greater(a, b) == Ok(Number(a).value > Number(b).value)
    ensures GreaterEqual(a, b) == Ok(Number(a).value >= Number(b).value)
  {
  }
}
