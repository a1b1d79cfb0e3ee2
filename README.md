# Error normalisation for obsidian-bases-kanban, in Dafny

This project models the error-handling utilities of the plugin
(`src/utils/errorHandling.ts`):

- `isError(v)`: whether a caught value is an `Error` instance.
- `toError(v)`: turns any caught value into an `Error`. It tries nine shape
  tests in a fixed order and the first that holds wins: an `Error` is handed
  back unchanged; a string becomes the message; an object with a `message`
  property gives that property, verbatim or through `JSON.stringify`; `null`
  and `undefined` give "null" and "undefined"; numbers and booleans give
  `String(v)`; arrays give `join(',')`; any other object gives
  "[object Object]"; anything left gives `String(v)`.
- `formatErrorMessage(e, context)`: the log line `[context] name: message`.

The model has two modules:

- `JsValues` (`js_values.dfy`) holds a closed datatype of the JavaScript values
  that can be caught: `Error` instances, strings, numbers, booleans, BigInts,
  Symbols, functions, `null`, `undefined`, arrays and other objects. It also
  holds the runtime operations the utility relies on: `typeof`, truthiness,
  `'message' in v`, `Array.isArray`, `String(...)`, ToString and
  `Array.prototype.join(',')`. Integers are printed in decimal. A parser reads
  that decimal form back, and a proof shows it returns the original integer.
- `ErrorHandling` (`error_handling.dfy`) holds the three utilities.
  `SelectRule` is the guard chain of `toError`, written as the source writes
  it, so the guards overlap in the same way:
  - an `Error` also passes the `message` guard, because it inherits
    `message` from `Error.prototype`;
  - `null` and arrays also pass `typeof === 'object'`.

  `ToError` builds the result of the rule that `SelectRule` picks. The result
  is either the caught error itself (`Passthrough`) or a new `Error`
  (`Fresh`, named "Error").

The utility is documented as never failing. As written, it can throw in two
cases, and the model follows the code, so `ToError` returns an `Outcome`
(`Returned` or `Threw`):

- An object whose `message` property is not a string and whose
  `JSON.stringify` throws. Examples: `{message: 10n}`, or a cyclic object.
- An array that holds a Symbol at any depth, such as `[Symbol()]`.
  `join` converts elements with ToString, and ToString throws a `TypeError`
  on a Symbol. `String(Symbol())` does not throw, because `String(...)`
  renders a Symbol as "Symbol(description)".

`ToErrorThrowsExactly` proves these are the only two cases.

Also as written, `{message: undefined}` gives the message "". The reason:
`JSON.stringify(undefined)` returns `undefined`, and `new Error(undefined)`
keeps the empty message inherited from `Error.prototype`.

## Model

| member | source | states |
|---|---|---|
| `ErrorHandling.SelectRule` | src/utils/errorHandling.ts:20-63 | Which rule takes each shape once earlier rules have taken theirs. Error instances → pass-through. Strings → string rule. Objects with a `message` property → message rule. `null` and `undefined` → their own rules. Numbers and booleans → `String` rule. Arrays → array rule. Other objects → "[object Object]". BigInt, Symbol and function → fallback. Each direction is an if-and-only-if. |
| `ErrorHandling.EarlierRulesShadowLater` | src/utils/errorHandling.ts:21-58 | Later guards also accept values that earlier rules take. An Error passes the `message` guard and the object guard. `null` passes the object guard but not the `message` guard, because it is falsy. Arrays pass the object guard. So the order of the chain decides the result. |
| `ErrorHandling.ToError` | src/utils/errorHandling.ts:10-63 | The result is the caught error itself, unchanged, if and only if `isError` holds. Every other value that does not throw yields a new `Error` with the default name "Error". |
| `ErrorHandling.StringBecomesMessage` | src/utils/errorHandling.ts:25-27 | A string becomes exactly the message of a new `Error`. |
| `ErrorHandling.MessagePropertyBecomesMessage` | src/utils/errorHandling.ts:29-35 | An object with a `message` property never takes the pass-through path. A string property becomes the message verbatim. Otherwise the message is the property's serialisation, or "" when that serialisation is `undefined`. If serialising throws, `toError` throws. |
| `ErrorHandling.PrimitiveMessageProperties` | src/utils/errorHandling.ts:29-35 | Assumes the serialiser behaves as ECMAScript requires on primitives. Then `{message: null}` → "null", `{message: undefined}` → "", `{message: false}` → "false", an integer of magnitude at most 2^53 → its decimal form, NaN and ±Infinity → "null", and a BigInt makes `toError` throw. |
| `ErrorHandling.SentinelMessages` | src/utils/errorHandling.ts:38-44 | `null` → message "null"; `undefined` → message "undefined". |
| `ErrorHandling.NumberAndBooleanMessages` | src/utils/errorHandling.ts:46-48 | Numbers and booleans become their `String(...)` rendering, e.g. `true` → "true". The message of an integer of magnitude at most 2^53 parses back to that number. |
| `ErrorHandling.ArrayMessageThrowsIffSymbol` | src/utils/errorHandling.ts:50-53 | Arrays take the array rule, never the "[object Object]" rule. `[]` → "". `toError` throws on an array if and only if a Symbol occurs somewhere inside it. |
| `ErrorHandling.ArrayMessageJoinsRenderings` | src/utils/errorHandling.ts:50-53 | When no element throws, the message is the element renderings joined with ",". |
| `ErrorHandling.ArrayOfNumbersMessage` | src/utils/errorHandling.ts:50-53 | `toError([1, 2, 3])` has the message "1,2,3". |
| `ErrorHandling.ArrayMessageSplitsBack` | src/utils/errorHandling.ts:50-53 | For a non-empty array whose element renderings contain no comma, splitting the message on "," gives back exactly those renderings. |
| `ErrorHandling.PlainObjectMessage` | src/utils/errorHandling.ts:55-58 | An object without a `message` property → "[object Object]". |
| `ErrorHandling.FallbackMessages` | src/utils/errorHandling.ts:60-62 | A BigInt → its decimal form. A Symbol → "Symbol(description)". A function → its source text. |
| `ErrorHandling.ToErrorThrowsExactly` | src/utils/errorHandling.ts:20-63 | `toError` throws if and only if (a) a non-string `message` property fails to serialise, or (b) the value is an array holding a Symbol. It returns for every other input. |
| `ErrorHandling.FormatErrorMessage` | src/utils/errorHandling.ts:71-73 | The line is "[" + context + "]", a space, the error's name followed by ": ", then the error's message, for a passed-through error as for a new one. Its length is the length of the context, name and message plus the five fixed characters. |
| `ErrorHandling.ContextRoundTrip` | src/utils/errorHandling.ts:71-73 | A context label without "]" is what stands between the leading "[" and the first "]" of the formatted line. |
| `ErrorHandling.FreshErrorLine` | src/utils/errorHandling.ts:71-73 | For a new error, the line is "[context] Error: " followed by the message, which starts at offset \|context\| + 10. |
| `ErrorHandling.FormatOfNormalisedString` | src/utils/errorHandling.ts:71-73 | Formatting `toError("boom")` with context "init" gives "[init] Error: boom". |
| `JsValues.NatToDecimal` | src/utils/errorHandling.ts:47 | The digits `String(n)` prints for a non-negative integer: at least one digit, all digits, no leading zero except for 0 itself. |
| `JsValues.IntToDecimal` | src/utils/errorHandling.ts:47 | A leading "-" appears exactly for negative integers. |
| `JsValues.NatToDecimalRoundTrip` | src/utils/errorHandling.ts:47 | The value of the printed digits is the number printed. |
| `JsValues.IntToDecimalRoundTrip` | src/utils/errorHandling.ts:47 | Parsing the printed form of any integer gives that integer back. |
| `JsValues.RenderElements` | src/utils/errorHandling.ts:52 | `join` yields one rendering per element. `null` and `undefined` elements render as "", and string elements as themselves. |
| `JsValues.ToStringThrowsIffSymbol` | src/utils/errorHandling.ts:52 | Converting a value with ToString throws if and only if a Symbol occurs in it, looking inside nested arrays. |
| `JsValues.RenderingThrowsIffSymbol` | src/utils/errorHandling.ts:52 | Rendering the elements of an array throws if and only if some element contains a Symbol. |
| `JsValues.SplitJoinRoundTrip` | src/utils/errorHandling.ts:52 | Splitting on "," recovers a non-empty list of comma-free strings after they are joined with ",". |

## Left out

- The exact output of `JSON.stringify` (line 33) is not modelled. `ToError`
  takes the serialiser as a parameter, and its results cover the three ways
  `JSON.stringify` can end: text, `undefined`, or an exception. Only what
  ECMAScript fixes for primitives is stated, in `StringifiesPrimitivesAsJson`.
  Objects, strings, `toJSON` and cycles stay abstract.
- Numbers are limited to integers of magnitude at most 2^53, NaN and
  ±Infinity. Negative zero is the same as 0; both print "0". Fractions are
  not modelled, and neither are larger magnitudes. Above 2^53, `String(n)`
  (line 47) and `JSON.stringify` (line 33) print the shortest digits that
  round back to the double, padded with zeros: `2**64` prints as
  "18446744073709552000". From 10^21 on they use the exponent form.
- NumberAndBooleanMessages: covers only numbers of magnitude at most 2^53,
  NaN and ±Infinity, for the reason in the line above.
- PrimitiveMessageProperties: its serialiser predicate fixes `JSON.stringify`
  only on numbers of magnitude at most 2^53, for the same reason.
- `Obj` stands for plain objects only. It converts to "[object Object]",
  inside arrays too. Built-in objects with their own `toString` would render
  differently under `join` at line 52. Examples: `[new Date(0)]` gives the
  date text, `[/a/]` gives "/a/", and `[new String("x")]` gives "x". Such
  objects are not modelled.
- `Obj` carries only the `message` property. Objects that differ elsewhere
  are one model value, so the serialiser parameter must give them the same
  text. For example, `{message: {a: 1}}` and `{message: {b: 2}}` are both
  `Obj(Some(Obj(None)))`.
- Objects are finite trees that keep their built-in `toString`. The model
  leaves out cyclic arrays (which `join` renders as ""), user-defined
  `toString`, `valueOf`, `Symbol.toPrimitive` and `Symbol.toStringTag`,
  getters that throw, and Proxies. All of these can change what lines 29-58
  produce.
- Arrays and functions carrying a `message` property are not modelled.
  Because line 29 is tested first, such an array would take the `message`
  rule.
- An `Error`'s `name` and `message` are strings. Non-string values there,
  and other realms' errors that fail `instanceof`, are not modelled. Such an
  error is an ordinary `Obj` in the model.
- Strings are sequences of Unicode scalar values. Lone UTF-16 surrogates
  cannot be expressed.
- `ErrorObject.ref` stands for object identity. It also stands for whatever
  else the error carries (stack, cause, subclass fields), which
  the pass-through path keeps because it returns the very value it was
  given.
- `test-runner.mjs`, `loader.mjs` and `eslint.config.mjs` are not part of
  this model. They hold process spawning, file writes, module-loader hooks
  and lint configuration, with no logic of the utility.
