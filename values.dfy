/** The dynamically typed values a form field can hold, and the pieces of JavaScript
    semantics the validators apply to them. */
module FormValues {
  import opened JsText

  datatype Option<+T> = None | Some(value: T)

  /** A field value as the validators see it. `Absent` stands for both `null` and
      `undefined` (a key missing from the form data), which the code never tells
      apart. Numbers are integers; the IEEE-754 not-a-number has its own tag. */
  datatype Value = Absent | Str(s: string) | Num(n: int) | NaN | Bool(b: bool)

  /** The form data object: field key to current value. */
  type FormData = map<string, Value>

  /** `formData[key]`: a missing key reads as `undefined`. */
  function Get(data: FormData, key: string): Value {
    if key in data then data[key] else Absent
  }

  /** Storing under one key changes what that key reads and nothing else. */
  lemma GetAfterUpdate(data: FormData, k: string, v: Value, k': string)
    ensures Get(data[k := v], k') == if k' == k then v else Get(data, k')
  {
  }

  /** JavaScript truthiness: `''`, `0`, `NaN`, `false`, `null` and `undefined`
      are falsy, everything else is truthy. */
  predicate Truthy(v: Value) {
    match v
    case Absent => false
    case Str(s) => s != ""
    case Num(n) => n != 0
    case NaN => false
    case Bool(b) => b
  }

  /** String conversion of a value, as `value + '...'` performs it. */
  function ToJsString(v: Value): string {
    match v
    case Absent => "undefined"
    case Str(s) => s
    case Num(n) => IntToString(n)
    case NaN => "NaN"
    case Bool(b) => if b then "true" else "false"
  }

  /** A value the change handler can store: it never stores `undefined` or NaN. */
  predicate Settled(v: Value) {
    !v.Absent? && !v.NaN?
  }

  /** What the required rule treats as missing, stated without `trim`: no value,
      NaN, `false`, or a string of whitespace only. */
  predicate Blank(v: Value) {
    || v == Absent || v == NaN || v == Bool(false)
    || (v.Str? && AllWhitespace(v.s))
  }
}
