/**
 * A closed model of the JavaScript values that can reach the error-handling
 * utilities, together with the parts of the runtime those utilities lean on:
 * the `typeof` operator, truthiness, the `in` test for a `message` property,
 * `String(...)` and `Array.prototype.join(',')`.
 *
 * Objects are assumed to keep their built-in `toString` (no user override,
 * no `Symbol.toPrimitive`, no `Symbol.toStringTag`), and are finite trees.
 */
module JsValues {

  datatype Option<T> = None | Some(value: T)

  /**
   * 2^53: every integer of at most this magnitude is a double, and `String(n)`
   * prints it digit for digit. Beyond it not every integer is a double, and
   * `String` prints the shortest digits that round back, padded with zeros.
   */
  const MaxExactInteger: int := 9_007_199_254_740_992

  /** The integer-valued numbers that `String(n)` prints exactly, as plain decimal digits. */
  type IntegralNumber = i: int | -MaxExactInteger <= i <= MaxExactInteger

  /** A JavaScript number. Negative zero is folded into `Finite(0)`: both print "0" and both are falsy. */
  datatype JsNumber = Finite(value: IntegralNumber) | NaN | PositiveInfinity | NegativeInfinity

  /**
   * An `Error` instance (anything with `Error.prototype` on its prototype chain).
   * `ref` stands for the heap object itself: two errors with equal name and
   * message are still different objects, and an error handed back unchanged
   * keeps its `ref` together with everything else it carries.
   */
  datatype ErrorObject = ErrorObject(ref: nat, name: string, message: string)

  datatype JsValue =
    | ErrorInstance(error: ErrorObject)
    | Str(text: string)
    | Num(number: JsNumber)
    | Bool(flag: bool)
    | BigInt(big: int)
    | Symbol(description: string)
    /** A function object; `source` is what `Function.prototype.toString` gives. */
    | Function(source: string)
    | Null
    | Undefined
    | Arr(elements: seq<JsValue>)
    /**
     * Any other object. `messageProperty` is `Some(m)` when `'message' in obj`
     * holds (own or inherited), `m` being the property's value.
     */
    | Obj(messageProperty: Option<JsValue>)

  /** The `typeof` operator. */
  function TypeOf(v: JsValue): string
  {
    match v
    case Str(_) => "string"
    case Num(_) => "number"
    case Bool(_) => "boolean"
    case BigInt(_) => "bigint"
    case Symbol(_) => "symbol"
    case Function(_) => "function"
    case Undefined => "undefined"
    case Null => "object"
    case ErrorInstance(_) => "object"
    case Arr(_) => "object"
    case Obj(_) => "object"
  }

  /** ToBoolean: what makes `if (v)` and `v && ...` take the true branch. */
  predicate Truthy(v: JsValue)
  {
    match v
    case Str(s) => s != ""
    case Num(n) => !(n.NaN? || n == Finite(0))
    case Bool(b) => b
    case BigInt(i) => i != 0
    case Null => false
    case Undefined => false
    case _ => true
  }

  /**
   * `'message' in v` for an object `v`. Every `Error` inherits `message` from
   * `Error.prototype`; arrays and functions are modelled without one.
   */
  predicate HasMessageProperty(v: JsValue)
  {
    match v
    case ErrorInstance(_) => true
    case Obj(m) => m.Some?
    case _ => false
  }

  /** `v.message`, for a value that has that property. */
  function MessageProperty(v: JsValue): JsValue
    requires HasMessageProperty(v)
  {
    match v
    case ErrorInstance(e) => Str(e.message)
    case Obj(m) => m.value
  }

  /** `Array.isArray`. */
  predicate IsArray(v: JsValue)
  {
    v.Arr?
  }

  // ---------------------------------------------------------------------------
  // Decimal rendering of integers (Number::toString for integral values, and
  // BigInt::toString), with the parser that inverts it.
  // ---------------------------------------------------------------------------

  predicate IsDigit(c: char)
  {
    '0' <= c <= '9'
  }

  predicate AllDigits(s: string)
  {
    forall k :: 0 <= k < |s| ==> IsDigit(s[k])
  }

  function DigitValue(c: char): nat
    requires IsDigit(c)
  {
    c as int - '0' as int
  }

  function DigitChar(d: nat): (c: char)
    requires d < 10
    ensures IsDigit(c) && DigitValue(c) == d
  {
    ('0' as int + d) as char
  }

  /** The shortest decimal numeral of `n`: at least one digit, no leading zero. */
  function NatToDecimal(n: nat): (s: string)
    ensures |s| >= 1 && AllDigits(s)
    ensures s[0] == '0' <==> n == 0
    ensures s[0] == '0' ==> |s| == 1
    decreases n
  {
    if n < 10 then [DigitChar(n)] else NatToDecimal(n / 10) + [DigitChar(n % 10)]
  }

  /** The value of a numeral, most significant digit first. */
  function DecimalValue(s: string): nat
    requires AllDigits(s)
    decreases |s|
  {
    if s == [] then 0 else DecimalValue(s[..|s| - 1]) * 10 + DigitValue(s[|s| - 1])
  }

  lemma {:induction false} NatToDecimalRoundTrip(n: nat)
    ensures DecimalValue(NatToDecimal(n)) == n
    decreases n
  {
    if n >= 10 {
      NatToDecimalRoundTrip(n / 10);
      var s := NatToDecimal(n);
      assert s[..|s| - 1] == NatToDecimal(n / 10);
    }
  }

  /** An integer's decimal form: a '-' sign exactly for negatives, then the digits of its magnitude. */
  function IntToDecimal(i: int): (s: string)
    ensures |s| >= 1 && (s[0] == '-' <==> i < 0)
  {
    if i < 0 then "-" + NatToDecimal(-i) else NatToDecimal(i)
  }

  /** Reads back an optionally signed numeral; `None` for anything else. */
  function ParseIntDecimal(s: string): Option<int>
  {
    if |s| >= 2 && s[0] == '-' && AllDigits(s[1..]) then Some(-(DecimalValue(s[1..]) as int))
    else if |s| >= 1 && AllDigits(s) then Some(DecimalValue(s))
    else None
  }

  /** The decimal form of an integer names that integer and no other. */
  lemma IntToDecimalRoundTrip(i: int)
    ensures ParseIntDecimal(IntToDecimal(i)) == Some(i)
  {
    var s := IntToDecimal(i);
    if i < 0 {
      NatToDecimalRoundTrip(-i);
      assert s[1..] == NatToDecimal(-i);
    } else {
      NatToDecimalRoundTrip(i);
    }
  }

  /** Number::toString for the numbers of the model. */
  function NumberToString(n: JsNumber): string
  {
    match n
    case Finite(i) => IntToDecimal(i)
    case NaN => "NaN"
    case PositiveInfinity => "Infinity"
    case NegativeInfinity => "-Infinity"
  }

  // ---------------------------------------------------------------------------
  // ToString and Array.prototype.join(',')
  // ---------------------------------------------------------------------------

  /** The outcome of a string conversion: a string, or a thrown `TypeError`. */
  datatype Conversion = Converted(text: string) | TypeErrorThrown

  /** The renderings of an array's elements, or a thrown `TypeError`. */
  datatype Rendering = Rendered(parts: seq<string>) | RenderingThrew

  /** `Error.prototype.toString`. */
  function ErrorToString(e: ErrorObject): string
  {
    if e.name == "" then e.message
    else if e.message == "" then e.name
    else e.name + ": " + e.message
  }

  /**
   * The abstract operation ToString, applied to an object through its
   * built-in `toString`. A Symbol cannot be converted implicitly.
   */
  function ToStringValue(v: JsValue): Conversion
    decreases v
  {
    match v
    case Str(s) => Converted(s)
    case Num(n) => Converted(NumberToString(n))
    case Bool(b) => Converted(if b then "true" else "false")
    case BigInt(i) => Converted(IntToDecimal(i))
    case Symbol(_) => TypeErrorThrown
    case Function(src) => Converted(src)
    case Null => Converted("null")
    case Undefined => Converted("undefined")
    case ErrorInstance(e) => Converted(ErrorToString(e))
    case Obj(_) => Converted("[object Object]")
    case Arr(elems) =>
      match RenderElements(elems)
      case RenderingThrew => TypeErrorThrown
      case Rendered(parts) => Converted(JoinWithComma(parts))
  }

  /**
   * What `join` makes of each element, left to right: `null` and `undefined`
   * become the empty string, everything else goes through ToString.
   */
  function RenderElements(elems: seq<JsValue>): (r: Rendering)
    ensures r.Rendered? ==> |r.parts| == |elems|
    ensures r.Rendered? ==> forall k :: 0 <= k < |elems| && (elems[k].Null? || elems[k].Undefined?) ==> r.parts[k] == ""
    ensures r.Rendered? ==> forall k :: 0 <= k < |elems| && elems[k].Str? ==> r.parts[k] == elems[k].text
    decreases elems
  {
    if elems == [] then Rendered([])
    else
      var first := if elems[0].Null? || elems[0].Undefined? then Converted("") else ToStringValue(elems[0]);
      match first
      case TypeErrorThrown => RenderingThrew
      case Converted(t) =>
        match RenderElements(elems[1..])
        case RenderingThrew => RenderingThrew
        case Rendered(rest) => Rendered([t] + rest)
  }

  /** Strings separated by commas. */
  function JoinWithComma(parts: seq<string>): string
  {
    if parts == [] then ""
    else if |parts| == 1 then parts[0]
    else parts[0] + "," + JoinWithComma(parts[1..])
  }

  /** `String(v)`: ToString, except that a Symbol prints as "Symbol(description)". */
  function StringOf(v: JsValue): Conversion
  {
    if v.Symbol? then Converted("Symbol(" + v.description + ")") else ToStringValue(v)
  }

  /** Whether a Symbol occurs in `v`, looking inside arrays. */
  predicate ContainsSymbol(v: JsValue)
    decreases v
  {
    match v
    case Symbol(_) => true
    case Arr(elems) => exists k :: 0 <= k < |elems| && ContainsSymbol(elems[k])
    case _ => false
  }

  /** ToString throws exactly when a Symbol has to be converted. */
  lemma {:induction false} ToStringThrowsIffSymbol(v: JsValue)
    ensures ToStringValue(v).TypeErrorThrown? <==> ContainsSymbol(v)
    decreases v
  {
    if v.Arr? {
      RenderingThrowsIffSymbol(v.elements);
    }
  }

  lemma {:induction false} RenderingThrowsIffSymbol(elems: seq<JsValue>)
    ensures RenderElements(elems).RenderingThrew? <==> exists k :: 0 <= k < |elems| && ContainsSymbol(elems[k])
    decreases elems
  {
    if elems != [] {
      ToStringThrowsIffSymbol(elems[0]);
      RenderingThrowsIffSymbol(elems[1..]);
      if RenderElements(elems[1..]).RenderingThrew? {
        var k :| 0 <= k < |elems[1..]| && ContainsSymbol(elems[1..][k]);
        assert ContainsSymbol(elems[k + 1]);
      }
      if exists k :: 0 <= k < |elems| && ContainsSymbol(elems[k]) {
        var k :| 0 <= k < |elems| && ContainsSymbol(elems[k]);
        if k > 0 {
          assert ContainsSymbol(elems[1..][k - 1]);
        }
      }
    }
  }

  // ---------------------------------------------------------------------------
  // Splitting a comma-joined string, the inverse of JoinWithComma.
  // ---------------------------------------------------------------------------

  /** The pieces of `s` between its commas (one piece more than it has commas). */
  function SplitOnComma(s: string): (pieces: seq<string>)
    ensures |pieces| >= 1
    decreases |s|
  {
    if s == [] then [""]
    else
      var rest := SplitOnComma(s[1..]);
      if s[0] == ',' then [""] + rest else [[s[0]] + rest[0]] + rest[1..]
  }

  lemma {:induction false} SplitWithoutComma(a: string)
    requires ',' !in a
    ensures SplitOnComma(a) == [a]
    decreases |a|
  {
    if a != [] {
      SplitWithoutComma(a[1..]);
      assert [a[0]] + a[1..] == a;
    }
  }

  lemma {:induction false} SplitAtFirstComma(a: string, b: string)
    requires ',' !in a
    ensures SplitOnComma(a + "," + b) == [a] + SplitOnComma(b)
    decreases |a|
  {
    if a == [] {
      assert (a + "," + b)[1..] == b;
    } else {
      assert (a + "," + b)[1..] == a[1..] + "," + b;
      SplitAtFirstComma(a[1..], b);
      assert [a[0]] + a[1..] == a;
    }
  }

  /** Joining comma-free strings with commas loses nothing: splitting gives them back. */
  lemma {:induction false} SplitJoinRoundTrip(parts: seq<string>)
    requires |parts| >= 1
    requires forall k :: 0 <= k < |parts| ==> ',' !in parts[k]
    ensures SplitOnComma(JoinWithComma(parts)) == parts
    decreases |parts|
  {
    if |parts| == 1 {
      SplitWithoutComma(parts[0]);
    } else {
      SplitAtFirstComma(parts[0], JoinWithComma(parts[1..]));
      SplitJoinRoundTrip(parts[1..]);
      assert [parts[0]] + parts[1..] == parts;
    }
  }
}
