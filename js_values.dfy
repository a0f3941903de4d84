/**
 * The slice of JavaScript's value semantics that the form library relies on:
 * truthiness, `String(v)` / template-literal conversion, own enumerable
 * properties (what `{...v}` and `Object.entries(v)` see) and property lookup
 * (`v[key]`, which throws a TypeError on `null` and `undefined`).
 *
 * Numbers are integers: fractions, NaN and infinities are not modelled.
 * Objects are maps from property names to values; their key order is not
 * modelled. Built-in and inherited properties (`length`, `includes`,
 * `constructor`, ...) read as `undefined` here.
 */
module JsValues {
  import opened Wrappers

  datatype JsValue =
    | Undefined
    | Null
    | Bool(b: bool)
    | Num(n: int)
    | Str(s: string)
    | Arr(items: seq<JsValue>)
    | Obj(fields: map<string, JsValue>)

  /** What a piece of code throws: a built-in TypeError or an `Error` it raises itself. */
  datatype Exception = TypeError(what: string) | Error(what: string)

  /** `Boolean(v)`. */
  predicate Truthy(v: JsValue) {
    match v
    case Undefined | Null => false
    case Bool(b) => b
    case Num(n) => n != 0
    case Str(s) => s != ""
    case Arr(_) | Obj(_) => true
  }

  /** `v === null || v === undefined`. */
  predicate IsNullish(v: JsValue) {
    v.Undefined? || v.Null?
  }

  /** `typeof v`; `null` and arrays report `"object"`. */
  function TypeOf(v: JsValue): string {
    match v
    case Undefined => "undefined"
    case Null => "object"
    case Bool(_) => "boolean"
    case Num(_) => "number"
    case Str(_) => "string"
    case Arr(_) => "object"
    case Obj(_) => "object"
  }

  /** `typeof v === 'string'`. */
  predicate IsString(v: JsValue) {
    TypeOf(v) == "string"
  }

  // ---------------------------------------------------------------------------
  // Decimal numerals (used for array indices and numbers turned into strings)

  function DigitChar(d: nat): (c: char)
    requires d < 10
    ensures '0' <= c <= '9' && c as int - '0' as int == d
  {
    "0123456789"[d]
  }

  function NatToDecimal(n: nat): (r: string)
    ensures |r| > 0
    ensures forall i :: 0 <= i < |r| ==> '0' <= r[i] <= '9'
    decreases n
  {
    if n < 10 then [DigitChar(n)] else NatToDecimal(n / 10) + [DigitChar(n % 10)]
  }

  /** Reads a string of decimal digits back as a number; the inverse of NatToDecimal. */
  function ParseDecimal(s: string): nat
    requires forall i :: 0 <= i < |s| ==> '0' <= s[i] <= '9'
  {
    if s == [] then 0
    else ParseDecimal(s[..|s| - 1]) * 10 + (s[|s| - 1] as int - '0' as int)
  }

  lemma {:induction false} ParseNatToDecimal(n: nat)
    ensures ParseDecimal(NatToDecimal(n)) == n
    decreases n
  {
    if n >= 10 {
      ParseNatToDecimal(n / 10);
      var s := NatToDecimal(n);
      assert s[..|s| - 1] == NatToDecimal(n / 10);
    }
  }

  /** Different numbers have different numerals. */
  lemma NatToDecimalInjective(m: nat, n: nat)
    requires m != n
    ensures NatToDecimal(m) != NatToDecimal(n)
  {
    ParseNatToDecimal(m);
    ParseNatToDecimal(n);
  }

  function IntToDecimal(i: int): string {
    if i < 0 then "-" + NatToDecimal(-i) else NatToDecimal(i)
  }

  // ---------------------------------------------------------------------------
  // String conversion

  /** `String(v)`, also what a template literal `${v}` and a computed property key produce. */
  function ToJsString(v: JsValue): string
    decreases v, 1, 0
  {
    match v
    case Undefined => "undefined"
    case Null => "null"
    case Bool(b) => if b then "true" else "false"
    case Num(n) => IntToDecimal(n)
    case Str(s) => s
    case Arr(items) => JoinElements(items, 0)
    case Obj(_) => "[object Object]"
  }

  /** `Array.prototype.join(',')` from index `i` on: `null` and `undefined` elements print as "". */
  function JoinElements(items: seq<JsValue>, i: nat): string
    requires i <= |items|
    decreases Arr(items), 0, |items| - i
  {
    if i == |items| then ""
    else
      var here := if IsNullish(items[i]) then "" else ToJsString(items[i]);
      if i == |items| - 1 then here else here + "," + JoinElements(items, i + 1)
  }

  // ---------------------------------------------------------------------------
  // Own properties and property lookup

  /** The index-keyed properties of an array or string: "0" to the first element, and so on. */
  function IndexMap(items: seq<JsValue>): map<string, JsValue>
    decreases |items|
  {
    if items == [] then map[]
    else IndexMap(items[..|items| - 1])[NatToDecimal(|items| - 1) := items[|items| - 1]]
  }

  lemma {:induction false} IndexMapAt(items: seq<JsValue>, i: nat)
    requires i < |items|
    ensures NatToDecimal(i) in IndexMap(items) && IndexMap(items)[NatToDecimal(i)] == items[i]
    decreases |items|
  {
    var n := |items| - 1;
    if i < n {
      IndexMapAt(items[..n], i);
      NatToDecimalInjective(i, n);
    }
  }

  /** Every index key is a decimal numeral. */
  lemma {:induction false} IndexMapKeysAreNumerals(items: seq<JsValue>, k: string)
    requires k in IndexMap(items)
    ensures forall i :: 0 <= i < |k| ==> '0' <= k[i] <= '9'
    decreases |items|
  {
    var n := |items| - 1;
    if k != NatToDecimal(n) {
      IndexMapKeysAreNumerals(items[..n], k);
    }
  }

  /** A key that is not a numeral names an own property of an object only. */
  lemma NamedKeyOnlyOnObjects(v: JsValue, key: string)
    requires exists i :: 0 <= i < |key| && !('0' <= key[i] <= '9')
    ensures key in OwnProperties(v) ==> v.Obj?
  {
    if key in OwnProperties(v) {
      match v
      case Arr(items) => IndexMapKeysAreNumerals(items, key);
      case Str(s) => IndexMapKeysAreNumerals(Chars(s), key);
      case _ =>
    }
  }

  function Chars(s: string): seq<JsValue> {
    seq(|s|, i requires 0 <= i < |s| => Str([s[i]]))
  }

  /** The own enumerable properties: what `{...v}` copies and `Object.entries(v)` lists. */
  function OwnProperties(v: JsValue): map<string, JsValue> {
    match v
    case Obj(fields) => fields
    case Arr(items) => IndexMap(items)
    case Str(s) => IndexMap(Chars(s))
    case _ => map[]
  }

  /** `v[key]`: a TypeError on `null` and `undefined`, `undefined` for a missing property. */
  function Get(v: JsValue, key: string): (r: Result<JsValue, Exception>)
    ensures r.Err? <==> IsNullish(v)
    ensures r.Ok? && key in OwnProperties(v) ==> r.value == OwnProperties(v)[key]
    ensures r.Ok? && key !in OwnProperties(v) ==> r.value == Undefined
  {
    if IsNullish(v) then Err(TypeError("property of null or undefined"))
    else if key in OwnProperties(v) then Ok(OwnProperties(v)[key])
    else Ok(Undefined)
  }

  /** The first element of a non-empty array, as `v[0]` reads it. */
  lemma GetFirstOfArray(items: seq<JsValue>)
    requires |items| > 0
    ensures Get(Arr(items), "0") == Ok(items[0])
  {
    IndexMapAt(items, 0);
  }

  /** `v[key]` when the caller has already ruled out `null` and `undefined`. */
  function Prop(v: JsValue, key: string): JsValue
    requires !IsNullish(v)
  {
    Get(v, key).value
  }

  /** `{...v}`: a shallow copy as a plain object. */
  function Spread(v: JsValue): JsValue {
    Obj(OwnProperties(v))
  }
}
