/**
 * The error-normalisation utilities: `isError`, `toError` and
 * `formatErrorMessage`. `toError` is a first-match-wins chain of tests on the
 * shape of a caught value; the tests overlap (an `Error` also has a `message`
 * property, `null` and arrays also have `typeof` "object"), so the order of
 * the chain decides the result.
 */
module ErrorHandling {
  import opened JsValues

  /** `error instanceof Error`. */
  predicate IsError(v: JsValue)
  {
    v.ErrorInstance?
  }

  /** The guard of the message-property rule: `error && typeof error === 'object' && 'message' in error`. */
  predicate MessageGuard(v: JsValue)
  {
    Truthy(v) && TypeOf(v) == "object" && HasMessageProperty(v)
  }

  /** The guard of the plain-object rule: `typeof error === 'object'`. */
  predicate ObjectGuard(v: JsValue)
  {
    TypeOf(v) == "object"
  }

  /** The nine rules of `toError`, in the order they are tried. */
  datatype Rule =
    | FromErrorInstance
    | FromString
    | FromMessageProperty
    | FromNull
    | FromUndefined
    | FromNumberOrBoolean
    | FromArray
    | FromPlainObject
    | FromFallback

  /**
   * The first rule whose guard holds. The contract spells out which shapes
   * each rule ends up handling once the earlier rules have taken theirs.
   */
  function SelectRule(v: JsValue): (r: Rule)
    ensures r == FromErrorInstance <==> v.ErrorInstance?
    ensures r == FromString <==> v.Str?
    ensures r == FromMessageProperty <==> v.Obj? && v.messageProperty.Some?
    ensures r == FromNull <==> v.Null?
    ensures r == FromUndefined <==> v.Undefined?
    ensures r == FromNumberOrBoolean <==> v.Num? || v.Bool?
    ensures r == FromArray <==> v.Arr?
    ensures r == FromPlainObject <==> v.Obj? && v.messageProperty.None?
    ensures r == FromFallback <==> v.BigInt? || v.Symbol? || v.Function?
  {
    if IsError(v) then FromErrorInstance
    else if TypeOf(v) == "string" then FromString
    else if MessageGuard(v) then FromMessageProperty
    else if v.Null? then FromNull
    else if v.Undefined? then FromUndefined
    else if TypeOf(v) == "number" || TypeOf(v) == "boolean" then FromNumberOrBoolean
    else if IsArray(v) then FromArray
    else if ObjectGuard(v) then FromPlainObject
    else FromFallback
  }

  /** Why the order of the chain matters: later guards also hold of values that earlier rules take. */
  lemma EarlierRulesShadowLater(v: JsValue)
    ensures IsError(v) ==> MessageGuard(v) && ObjectGuard(v)
    ensures v.Null? ==> ObjectGuard(v) && !MessageGuard(v)
    ensures IsArray(v) ==> ObjectGuard(v)
  {
  }

  // ---------------------------------------------------------------------------
  // The normaliser
  // ---------------------------------------------------------------------------

  /** What `JSON.stringify` gives: a JSON text, `undefined`, or an exception. */
  datatype Serialized = Json(text: string) | NoJson | SerializeThrew

  /**
   * `JSON.stringify` as seen by `toError`. It is passed in rather than defined,
   * because its output for objects depends on own enumerable properties,
   * `toJSON` methods and cycles, none of which the value model carries.
   */
  type Stringify = JsValue -> Serialized

  /** What ECMAScript fixes about `JSON.stringify` on the values that are not objects or strings. */
  ghost predicate StringifiesPrimitivesAsJson(stringify: Stringify)
  {
    && stringify(Null) == Json("null")
    && stringify(Undefined) == NoJson
    && stringify(Bool(true)) == Json("true")
    && stringify(Bool(false)) == Json("false")
    && (forall n :: stringify(Num(n)) == Json(if n.Finite? then IntToDecimal(n.value) else "null"))
    && (forall i :: stringify(BigInt(i)) == SerializeThrew)
    && (forall d :: stringify(Symbol(d)) == NoJson)
    && (forall src :: stringify(Function(src)) == NoJson)
  }

  /** The name a freshly constructed `Error` carries. */
  const DefaultErrorName: string := "Error"

  /** An `Error` as `toError` returns it: the caught one itself, or a new one. */
  datatype CanonicalError = Passthrough(original: ErrorObject) | Fresh(message: string)
  {
    function Name(): string
    {
      if Passthrough? then original.name else DefaultErrorName
    }

    function Message(): string
    {
      if Passthrough? then original.message else message
    }
  }

  /** Why `toError` itself can throw. */
  datatype ThrowCause = StringifyThrew | SymbolConversion

  /** The result of a call of `toError`: an error returned, or an exception escaping. */
  datatype Outcome = Returned(error: CanonicalError) | Threw(cause: ThrowCause)

  /** `new Error(arg)`: an absent (`undefined`) argument leaves the inherited empty message. */
  function NewError(arg: Option<string>): (e: CanonicalError)
    ensures e.Name() == DefaultErrorName
    ensures e.Message() == if arg.Some? then arg.value else ""
  {
    Fresh(if arg.Some? then arg.value else "")
  }

  /** `new Error(s)` for the outcome of a string conversion that may have thrown. */
  function NewErrorFrom(c: Conversion): Outcome
  {
    match c
    case Converted(t) => Returned(NewError(Some(t)))
    case TypeErrorThrown => Threw(SymbolConversion)
  }

  /**
   * `toError`. The caught value is handed back exactly when it is an `Error`;
   * every other value yields a new `Error`, so it carries the default name.
   */
  function ToError(v: JsValue, stringify: Stringify): (r: Outcome)
    ensures r.Returned? && r.error.Passthrough? <==> IsError(v)
    ensures IsError(v) ==> r == Returned(Passthrough(v.error))
    ensures r.Returned? && !IsError(v) ==> r.error.Name() == DefaultErrorName
  {
    match SelectRule(v)
    case FromErrorInstance => Returned(Passthrough(v.error))
    case FromString => Returned(NewError(Some(v.text)))
    case FromMessageProperty =>
      var field := MessageProperty(v);
      if TypeOf(field) == "string" then Returned(NewError(Some(field.text)))
      else (
        match stringify(field)
        case Json(t) => Returned(NewError(Some(t)))
        case NoJson => Returned(NewError(None))
        case SerializeThrew => Threw(StringifyThrew))
    case FromNull => Returned(NewError(Some("null")))
    case FromUndefined => Returned(NewError(Some("undefined")))
    case FromNumberOrBoolean => NewErrorFrom(StringOf(v))
    case FromArray =>
      if |v.elements| == 0 then Returned(NewError(Some("")))
      else NewErrorFrom(ToStringValue(v))
    case FromPlainObject => Returned(NewError(Some("[object Object]")))
    case FromFallback => NewErrorFrom(StringOf(v))
  }

  /** The message of a normal outcome. */
  function MessageOf(r: Outcome): string
    requires r.Returned?
  {
    r.error.Message()
  }

  /** A string becomes the message of a new `Error`, whatever it contains. */
  lemma StringBecomesMessage(s: string, stringify: Stringify)
    ensures ToError(Str(s), stringify) == Returned(Fresh(s))
  {
  }

  /**
   * An object with a `message` property that is not an `Error` never takes
   * the pass-through path: its message is the property verbatim when that
   * is a string, else the serialisation of the property ("" when the
   * serialisation is `undefined`), and `toError` throws when serialising does.
   */
  lemma MessagePropertyBecomesMessage(m: JsValue, stringify: Stringify)
    ensures var r := ToError(Obj(Some(m)), stringify);
      && (m.Str? ==> r == Returned(Fresh(m.text)))
      && (!m.Str? && stringify(m).Json? ==> r == Returned(Fresh(stringify(m).text)))
      && (!m.Str? && stringify(m).NoJson? ==> r == Returned(Fresh("")))
      && (!m.Str? && stringify(m).SerializeThrew? ==> r == Threw(StringifyThrew))
  {
  }

  /** With the serialiser ECMAScript prescribes for primitives: the primitive `message` properties. */
  lemma PrimitiveMessageProperties(stringify: Stringify, n: JsNumber, i: int)
    requires StringifiesPrimitivesAsJson(stringify)
    ensures ToError(Obj(Some(Null)), stringify) == Returned(Fresh("null"))
    ensures ToError(Obj(Some(Undefined)), stringify) == Returned(Fresh(""))
    ensures ToError(Obj(Some(Bool(false))), stringify) == Returned(Fresh("false"))
    ensures n.Finite? ==> ToError(Obj(Some(Num(n))), stringify) == Returned(Fresh(NumberToString(n)))
    ensures !n.Finite? ==> ToError(Obj(Some(Num(n))), stringify) == Returned(Fresh("null"))
    ensures ToError(Obj(Some(BigInt(i))), stringify) == Threw(StringifyThrew)
  {
  }

  /** `null` and `undefined` become the messages "null" and "undefined". */
  lemma SentinelMessages(stringify: Stringify)
    ensures ToError(Null, stringify) == Returned(Fresh("null"))
    ensures ToError(Undefined, stringify) == Returned(Fresh("undefined"))
  {
  }

  /**
   * Numbers and booleans become their `String(...)` rendering; the message of
   * an integral number reads back as that number.
   */
  lemma NumberAndBooleanMessages(n: JsNumber, b: bool, stringify: Stringify)
    ensures ToError(Num(n), stringify) == Returned(Fresh(NumberToString(n)))
    ensures n.Finite? ==> ParseIntDecimal(MessageOf(ToError(Num(n), stringify))) == Some(n.value as int)
    ensures ToError(Bool(b), stringify) == Returned(Fresh(if b then "true" else "false"))
  {
    if n.Finite? {
      IntToDecimalRoundTrip(n.value);
    }
  }

  /**
   * Arrays take the array rule, never the "[object Object]" one: the empty
   * array gives "", and an array with a Symbol anywhere inside makes
   * `toError` throw, and only such an array does.
   */
  lemma ArrayMessageThrowsIffSymbol(elems: seq<JsValue>, stringify: Stringify)
    ensures SelectRule(Arr(elems)) == FromArray
    ensures elems == [] ==> ToError(Arr(elems), stringify) == Returned(Fresh(""))
    ensures (exists k :: 0 <= k < |elems| && ContainsSymbol(elems[k])) <==> ToError(Arr(elems), stringify).Threw?
  {
    RenderingThrowsIffSymbol(elems);
  }

  /** When no element throws, an array's message is its element renderings joined with commas. */
  lemma ArrayMessageJoinsRenderings(elems: seq<JsValue>, stringify: Stringify)
    requires RenderElements(elems).Rendered?
    ensures ToError(Arr(elems), stringify) == Returned(Fresh(JoinWithComma(RenderElements(elems).parts)))
  {
  }

  /** `toError([1, 2, 3])` carries the message "1,2,3". */
  lemma ArrayOfNumbersMessage(stringify: Stringify)
    ensures ToError(Arr([Num(Finite(1)), Num(Finite(2)), Num(Finite(3))]), stringify) == Returned(Fresh("1,2,3"))
  {
    var elems := [Num(Finite(1)), Num(Finite(2)), Num(Finite(3))];
    assert IntToDecimal(1) == "1" && IntToDecimal(2) == "2" && IntToDecimal(3) == "3";
    assert elems[1..][1..] == elems[2..] && elems[2..][1..] == [];
    assert RenderElements(elems[2..]) == Rendered(["3"]);
    assert RenderElements(elems[1..]) == Rendered(["2", "3"]);
    assert RenderElements(elems) == Rendered(["1", "2", "3"]);
    assert JoinWithComma(["1", "2", "3"]) == "1,2,3";
  }

  /** Splitting a non-empty array's message on commas gives back its comma-free element renderings. */
  lemma ArrayMessageSplitsBack(elems: seq<JsValue>, stringify: Stringify)
    requires elems != [] && RenderElements(elems).Rendered?
    requires forall k :: 0 <= k < |elems| ==> ',' !in RenderElements(elems).parts[k]
    ensures SplitOnComma(MessageOf(ToError(Arr(elems), stringify))) == RenderElements(elems).parts
  {
    ArrayMessageJoinsRenderings(elems, stringify);
    SplitJoinRoundTrip(RenderElements(elems).parts);
  }

  /** Any other object becomes the fixed message "[object Object]". */
  lemma PlainObjectMessage(stringify: Stringify)
    ensures ToError(Obj(None), stringify) == Returned(Fresh("[object Object]"))
  {
  }

  /** The remaining kinds go through `String(...)`, which accepts a Symbol. */
  lemma FallbackMessages(i: int, d: string, src: string, stringify: Stringify)
    ensures ToError(BigInt(i), stringify) == Returned(Fresh(IntToDecimal(i)))
    ensures ToError(Symbol(d), stringify) == Returned(Fresh("Symbol(" + d + ")"))
    ensures ToError(Function(src), stringify) == Returned(Fresh(src))
  {
  }

  /**
   * `toError` returns for every input except two: a non-string `message`
   * property whose serialisation throws, and an array holding a Symbol.
   */
  lemma ToErrorThrowsExactly(v: JsValue, stringify: Stringify)
    ensures ToError(v, stringify).Threw? <==>
      || (v.Obj? && v.messageProperty.Some? && !v.messageProperty.value.Str?
          && stringify(v.messageProperty.value).SerializeThrew?)
      || (v.Arr? && ContainsSymbol(v))
  {
    if v.Arr? {
      RenderingThrowsIffSymbol(v.elements);
    }
  }

  // ---------------------------------------------------------------------------
  // The formatter
  // ---------------------------------------------------------------------------

  /** `formatErrorMessage`: one line, "[context] name: message". */
  function FormatErrorMessage(error: CanonicalError, context: string): (line: string)
    ensures |line| == |context| + |error.Name()| + |error.Message()| + 5
    ensures line[..|context| + 2] == "[" + context + "]"
    ensures line[|context| + 2..|context| + 3] == " "
    ensures line[|context| + 3..|line| - |error.Message()|] == error.Name() + ": "
    ensures line[|line| - |error.Message()|..] == error.Message()
  {
    "[" + context + "] " + error.Name() + ": " + error.Message()
  }

  /** The part of `s` before the first `c`, if `s` contains `c`. */
  function PrefixBefore(s: string, c: char): (p: Option<string>)
    decreases |s|
  {
    if s == [] then None
    else if s[0] == c then Some([])
    else match PrefixBefore(s[1..], c)
      case None => None
      case Some(rest) => Some([s[0]] + rest)
  }

  lemma {:induction false} PrefixBeforeFirst(a: string, c: char, b: string)
    requires c !in a
    ensures PrefixBefore(a + [c] + b, c) == Some(a)
    decreases |a|
  {
    if a != [] {
      assert (a + [c] + b)[1..] == a[1..] + [c] + b;
      PrefixBeforeFirst(a[1..], c, b);
      assert [a[0]] + a[1..] == a;
    }
  }

  /** The context label of a formatted line: what stands between the leading '[' and the first ']'. */
  function ContextOf(line: string): Option<string>
  {
    if |line| >= 1 && line[0] == '[' then PrefixBefore(line[1..], ']') else None
  }

  /** A context label without ']' can be read back from the formatted line. */
  lemma ContextRoundTrip(error: CanonicalError, context: string)
    requires ']' !in context
    ensures ContextOf(FormatErrorMessage(error, context)) == Some(context)
  {
    var line := FormatErrorMessage(error, context);
    var tail := " " + error.Name() + ": " + error.Message();
    assert line[1..] == context + "]" + tail;
    PrefixBeforeFirst(context, ']', tail);
  }

  /** The message of a new error follows the fixed text "[context] Error: " in the formatted line. */
  lemma FreshErrorLine(message: string, context: string)
    ensures FormatErrorMessage(Fresh(message), context) == "[" + context + "] Error: " + message
    ensures FormatErrorMessage(Fresh(message), context)[|context| + 10..] == message
  {
  }

  /** `formatErrorMessage(toError("boom"), "init")` is "[init] Error: boom". */
  lemma FormatOfNormalisedString(stringify: Stringify)
    ensures FormatErrorMessage(ToError(Str("boom"), stringify).error, "init") == "[init] Error: boom"
  {
  }
}
