/** JavaScript values as the form library handles them: the few coercions
    (truthiness, `String(v)`, `+v`, own enumerable properties, `v[key]`)
    that the rest of the model needs. Numbers are integers; `NaN` is its
    own value. */
module Js {

  datatype Option<T> = None | Some(value: T)

  /** How a JavaScript expression ends: with a value, or by throwing. */
  datatype Thrown<T> =
    | Returned(value: T)
    | TypeError    // e.g. calling `.map` on something that is not an array
    | RangeError   // the call stack is exhausted

  /** The same exception, raised from an expression of another type. */
  function Rethrow<A, B>(t: Thrown<A>): (r: Thrown<B>)
    requires !t.Returned?
    ensures r.TypeError? == t.TypeError? && !r.Returned?
  {
    if t.TypeError? then TypeError else RangeError
  }

  datatype Value =
    | Undefined
    | Null
    | Bool(b: bool)
    | Num(n: int)
    | NaN
    | Str(s: string)
    | Arr(items: seq<Value>)
    | Obj(props: map<string, Value>)
    | Callback(source: string)   // a function value, known by its source text

  /** `!!v` */
  predicate Truthy(v: Value) {
    match v
    case Undefined => false
    case Null => false
    case NaN => false
    case Bool(b) => b
    case Num(n) => n != 0
    case Str(s) => s != ""
    case _ => true
  }

  /** `a || b` */
  function Or(a: Value, b: Value): Value {
    if Truthy(a) then a else b
  }

  /** `typeof v === 'object'` (null included, functions excluded) */
  predicate IsObjectType(v: Value) {
    v.Null? || v.Arr? || v.Obj?
  }

  // ---------------------------------------------------------------------
  // Decimal digits

  function DigitChar(d: nat): char
    requires d < 10
  {
    "0123456789"[d]
  }

  function DigitValue(c: char): Option<nat> {
    if '0' <= c <= '9' then Some(c as int - '0' as int) else None
  }

  /** The canonical decimal spelling of `n`, as `String(n)` writes it. */
  function Decimal(n: nat): (r: string)
    ensures |r| >= 1
  {
    if n < 10 then [DigitChar(n)] else Decimal(n / 10) + [DigitChar(n % 10)]
  }

  /** A non-empty run of decimal digits read as a number (leading zeros allowed). */
  function ParseDigits(s: string): Option<nat>
    decreases |s|
  {
    if s == [] then None
    else
      match DigitValue(s[|s| - 1])
      case None => None
      case Some(d) =>
        if |s| == 1 then Some(d)
        else
          match ParseDigits(s[..|s| - 1])
          case None => None
          case Some(p) => Some(10 * p + d)
  }

  lemma {:induction false} ParseDecimal(n: nat)
    ensures ParseDigits(Decimal(n)) == Some(n)
  {
    if n >= 10 {
      var s := Decimal(n);
      assert s[..|s| - 1] == Decimal(n / 10);
      ParseDecimal(n / 10);
    }
  }

  lemma DecimalInjective()
    ensures forall a: nat, b: nat :: Decimal(a) == Decimal(b) ==> a == b
  {
    forall a: nat, b: nat | Decimal(a) == Decimal(b) ensures a == b {
      ParseDecimal(a);
      ParseDecimal(b);
    }
  }

  /** The array index that a property key names, if any: `"0"`, `"1"`, … but not `"01"`. */
  function IndexKey(key: string): (r: Option<nat>)
    ensures r.Some? ==> Decimal(r.value) == key
    ensures forall n: nat :: Decimal(n) == key ==> r == Some(n)
  {
    ParseDecimalAll();
    match ParseDigits(key)
    case None => None
    case Some(n) => if Decimal(n) == key then Some(n) else None
  }

  lemma ParseDecimalAll()
    ensures forall n: nat :: ParseDigits(Decimal(n)) == Some(n)
  {
    forall n: nat ensures ParseDigits(Decimal(n)) == Some(n) {
      ParseDecimal(n);
    }
  }

  // ---------------------------------------------------------------------
  // Conversions

  function IntToStr(n: int): string {
    if n < 0 then "-" + Decimal(-n) else Decimal(n)
  }

  function Join(parts: seq<string>, sep: string): (r: string)
    ensures parts == [] ==> r == ""
    ensures |parts| == 1 ==> r == parts[0]
  {
    if parts == [] then ""
    else if |parts| == 1 then parts[0]
    else Join(parts[..|parts| - 1], sep) + sep + parts[|parts| - 1]
  }

  /** `String(v)`, which template literals also use. An array is joined
      with `","`, its `null` and `undefined` entries written as empty. */
  function ToStr(v: Value): string {
    match v
    case Undefined => "undefined"
    case Null => "null"
    case NaN => "NaN"
    case Bool(b) => if b then "true" else "false"
    case Num(n) => IntToStr(n)
    case Str(s) => s
    case Arr(items) =>
      Join(seq(|items|, i requires 0 <= i < |items| =>
             if items[i].Undefined? || items[i].Null? then "" else ToStr(items[i])), ",")
    case Obj(_) => "[object Object]"
    case Callback(source) => source
  }

  /** `+s` on a string, for the integer forms: empty is 0, an optional sign,
      then decimal digits. */
  function ParseNumber(s: string): Option<int> {
    if s == "" then Some(0)
    else if s[0] == '-' then
      match ParseDigits(s[1..])
      case None => None
      case Some(n) => Some(-(n as int))
    else if s[0] == '+' then
      match ParseDigits(s[1..])
      case None => None
      case Some(n) => Some(n)
    else
      match ParseDigits(s)
      case None => None
      case Some(n) => Some(n)
  }

  /** `+v`: `None` stands for `NaN`. */
  function ToNumber(v: Value): Option<int> {
    match v
    case Undefined => None
    case NaN => None
    case Null => Some(0)
    case Bool(b) => Some(if b then 1 else 0)
    case Num(n) => Some(n)
    case Str(s) => ParseNumber(s)
    case _ => ParseNumber(ToStr(v))
  }

  /** `Number(v)` as a value. */
  function NumberValue(v: Value): (r: Value)
    ensures r.Num? || r.NaN?
  {
    match ToNumber(v)
    case Some(n) => Num(n)
    case None => NaN
  }

  lemma NumberOfIntString(n: int)
    ensures ToNumber(Str(IntToStr(n))) == Some(n)
    ensures NumberValue(Str(IntToStr(n))) == Num(n)
  {
    if n < 0 { ParseNegative(-n); } else { ParseNonNegative(n); }
    assert ParseNumber(IntToStr(n)) == Some(n);
  }

  lemma ParseNegative(n: nat)
    ensures ParseNumber("-" + Decimal(n)) == Some(-(n as int))
  {
    var s := "-" + Decimal(n);
    assert s[1..] == Decimal(n);
    ParseDecimal(n);
  }

  lemma ParseNonNegative(n: nat)
    ensures ParseNumber(Decimal(n)) == Some(n)
  {
    var s := Decimal(n);
    ParseDecimal(n);
    DecimalDigits(n);
    assert '0' <= s[0] <= '9';
  }

  lemma {:induction false} DecimalDigits(n: nat)
    ensures forall i :: 0 <= i < |Decimal(n)| ==> '0' <= Decimal(n)[i] <= '9'
  {
    if n >= 10 {
      DecimalDigits(n / 10);
    }
  }

  // ---------------------------------------------------------------------
  // Properties

  /** `{ "0": xs[0], "1": xs[1], … }` */
  function IndexMap(xs: seq<Value>): (m: map<string, Value>)
    ensures forall i :: 0 <= i < |xs| ==> Decimal(i) in m && m[Decimal(i)] == xs[i]
    ensures forall k :: k in m ==> IndexKey(k).Some? && IndexKey(k).value < |xs|
  {
    DecimalInjective();
    map i | 0 <= i < |xs| :: Decimal(i) := xs[i]
  }

  /** The own enumerable properties of `v`: what `Object.keys`,
      `Object.assign({}, v)` and `{ ...v }` see. */
  function OwnProperties(v: Value): map<string, Value> {
    match v
    case Obj(m) => m
    case Arr(items) => IndexMap(items)
    case Str(s) => IndexMap(seq(|s|, i requires 0 <= i < |s| => Str([s[i]])))
    case _ => map[]
  }

  /** `Object.assign({}, v)`, the shallow copy. */
  function Copy(v: Value): (r: Value)
    ensures r.Obj? && r.props == OwnProperties(v)
    ensures v.Obj? ==> r == v
  {
    Obj(OwnProperties(v))
  }

  /** `v[key]` on an object, an array or a string; `undefined` for every
      other value and for keys that are not there. Properties inherited
      from prototypes are not modelled. */
  function Prop(v: Value, key: string): Value {
    match v
    case Obj(m) => if key in m then m[key] else Undefined
    case Arr(items) =>
      if key == "length" then Num(|items|)
      else (
        match IndexKey(key)
        case Some(i) => if i < |items| then items[i] else Undefined
        case None => Undefined)
    case Str(s) =>
      if key == "length" then Num(|s|)
      else (
        match IndexKey(key)
        case Some(i) => if i < |s| then Str([s[i]]) else Undefined
        case None => Undefined)
    case _ => Undefined
  }

  /** `key in v` for a value whose `typeof` is `'object'`. */
  predicate HasProperty(v: Value, key: string) {
    key in OwnProperties(v) || (v.Arr? && key == "length")
  }

  /** Reading a copy of `v` gives what reading `v` gives, except an
      array's `length`, which its copy (a plain object) does not carry. */
  lemma PropOfCopy(v: Value, key: string)
    requires v.Obj? || v.Arr?
    ensures key != "length" || v.Obj? ==> Prop(Copy(v), key) == Prop(v, key)
  {
    if v.Arr? && key != "length" {
      IndexMapProp(v.items, key);
    }
  }

  lemma IndexMapProp(xs: seq<Value>, key: string)
    requires key != "length"
    ensures Prop(Obj(IndexMap(xs)), key) == Prop(Arr(xs), key)
  {
    var m := IndexMap(xs);
    var k := IndexKey(key);
    if k.Some? && k.value < |xs| {
      assert Decimal(k.value) == key;
    } else {
      assert key !in m;
    }
  }
}
