/** `validateField`: the per-field rule evaluator. Checks run in a fixed order and
    the first failing one decides the message; the result is `""` when the field
    is valid, and the evaluator is total. */
module Validation {
  import opened JsText
  import opened FormValues
  import opened Fields

  /** Which check decided the outcome of `validateField`, in the order the code
      runs them. `Rejected` carries the custom validator's message. */
  datatype Verdict =
    | Accepted
    | Missing
    | TooShort(bound: int)
    | TooLong(bound: int)
    | BadFormat
    | BelowMin(bound: int)
    | AboveMax(bound: int)
    | Rejected(message: string)

  function RequiredMessage(labelText: string): string { labelText + " is required" }
  function MinLengthMessage(n: int): string { "Must be at least " + IntToString(n) + " characters" }
  function MaxLengthMessage(n: int): string { "Must be at most " + IntToString(n) + " characters" }
  function PatternMessage(labelText: string): string { "Invalid format for " + labelText }
  function MinMessage(n: int): string { "Must be at least " + IntToString(n) }
  function MaxMessage(n: int): string { "Must be at most " + IntToString(n) }

  /** The string `validateField` returns for a verdict. */
  function Message(r: Verdict, labelText: string): string {
    match r
    case Accepted => ""
    case Missing => RequiredMessage(labelText)
    case TooShort(n) => MinLengthMessage(n)
    case TooLong(n) => MaxLengthMessage(n)
    case BadFormat => PatternMessage(labelText)
    case BelowMin(n) => MinMessage(n)
    case AboveMax(n) => MaxMessage(n)
    case Rejected(message) => message
  }

  /** The emptiness test of the required rule, as the code computes it. */
  predicate IsEmpty(v: Value) {
    match v
    case Absent => true
    case Str(s) => s == "" || Trim(s) == ""
    case Num(_) => false
    case NaN => true
    case Bool(b) => !b
  }

  /** The length rules are guarded by `&&`, so a bound of 0 (falsy) is skipped. */
  predicate MinLengthApplies(r: Rules) { r.minLength.Some? && r.minLength.value != 0 }
  predicate MaxLengthApplies(r: Rules) { r.maxLength.Some? && r.maxLength.value != 0 }

  /** The string block: only for a string whose trim is non-empty, and on the
      trimmed text. */
  function StringVerdict(c: FieldConfig, v: Value): (r: Verdict)
    ensures r == Accepted <==> StringRulesHold(c, v)
    ensures r.Accepted? || r.TooShort? || r.TooLong? || r.BadFormat?
  {
    if v.Str? && Trim(v.s) != "" then TextVerdict(c.rules, Trim(v.s)) else Accepted
  }

  /** minLength, then maxLength, then pattern, on the trimmed text. */
  function TextVerdict(r: Rules, trimmed: string): (e: Verdict)
    ensures e == Accepted <==> LengthHolds(r, Utf16Length(trimmed)) && PatternHolds(r, trimmed)
    ensures e.Accepted? || e.TooShort? || e.TooLong? || e.BadFormat?
  {
    var len := Utf16Length(trimmed);
    if MinLengthApplies(r) && len < r.minLength.value then TooShort(r.minLength.value)
    else if MaxLengthApplies(r) && len > r.maxLength.value then TooLong(r.maxLength.value)
    else if r.pattern.Some? && !r.pattern.value(trimmed) then BadFormat
    else Accepted
  }

  /** The number block: only for a number that is not NaN; min before max, each
      guarded by `!== undefined`, so a bound of 0 is enforced. */
  function NumberVerdict(r: Rules, v: Value): (e: Verdict)
    ensures e == Accepted <==> NumberRulesHold(r, v)
    ensures e.Accepted? || e.BelowMin? || e.AboveMax?
  {
    if v.Num? then
      if r.min.Some? && v.n < r.min.value then BelowMin(r.min.value)
      else if r.max.Some? && v.n > r.max.value then AboveMax(r.max.value)
      else Accepted
    else Accepted
  }

  /** The custom validator's verdict: a non-empty message it returns is passed on
      unchanged; `null` and `""` accept. */
  function CustomVerdict(c: FieldConfig, v: Value, data: FormData): (r: Verdict)
    ensures r == Accepted <==> CustomAccepts(c, v, data)
    ensures r.Accepted? || r.Rejected?
    ensures r.Rejected? ==>
      r.message != "" && c.customValidator.Some? && c.customValidator.value(data, v) == Some(r.message)
  {
    match c.customValidator
    case None => Accepted
    case Some(validator) =>
      match validator(data, v)
      case Some(message) => if message == "" then Accepted else Rejected(message)
      case None => Accepted
  }

  /** The check that decides `validateField`: required, then the string block,
      then the number block, then the custom validator. */
  function Check(c: FieldConfig, v: Value, data: FormData): Verdict {
    if c.rules.required && IsEmpty(v) then Missing
    else if StringVerdict(c, v) != Accepted then StringVerdict(c, v)
    else if NumberVerdict(c.rules, v) != Accepted then NumberVerdict(c.rules, v)
    else CustomVerdict(c, v, data)
  }

  /** `validateField(config, value, formData)`. */
  function ValidateField(c: FieldConfig, v: Value, data: FormData): string {
    Message(Check(c, v, data), c.labelText)
  }

  // ---------------------------------------------------------------------------
  // The rules as a declarative reference, independent of the check order.

  predicate RequiredHolds(c: FieldConfig, v: Value) {
    c.rules.required ==> !Blank(v)
  }

  predicate LengthHolds(r: Rules, len: int) {
    && (MinLengthApplies(r) ==> len >= r.minLength.value)
    && (MaxLengthApplies(r) ==> len <= r.maxLength.value)
  }

  predicate PatternHolds(r: Rules, text: string) {
    r.pattern.Some? ==> r.pattern.value(text)
  }

  predicate StringRulesHold(c: FieldConfig, v: Value) {
    v.Str? && !AllWhitespace(v.s) ==>
      LengthHolds(c.rules, Utf16Length(Trim(v.s))) && PatternHolds(c.rules, Trim(v.s))
  }

  predicate NumberRulesHold(r: Rules, v: Value) {
    v.Num? ==>
      && (r.min.Some? ==> r.min.value <= v.n)
      && (r.max.Some? ==> v.n <= r.max.value)
  }

  predicate BuiltinRulesHold(c: FieldConfig, v: Value) {
    RequiredHolds(c, v) && StringRulesHold(c, v) && NumberRulesHold(c.rules, v)
  }

  predicate CustomAccepts(c: FieldConfig, v: Value, data: FormData) {
    || c.customValidator.None?
    || c.customValidator.value(data, v) == None
    || c.customValidator.value(data, v) == Some("")
  }

  // ---------------------------------------------------------------------------
  // Properties of the evaluator.

  /** The code's emptiness test is the declarative notion of a blank value. */
  lemma IsEmptyIsBlank(v: Value)
    ensures IsEmpty(v) <==> Blank(v)
  {
  }

  /** Only acceptance renders as `""`: every other verdict has a non-empty message. */
  lemma MessageEmptyIffAccepted(r: Verdict, labelText: string)
    requires r.Rejected? ==> r.message != ""
    ensures Message(r, labelText) == "" <==> r == Accepted
  {
    match r
    case Missing => assert |RequiredMessage(labelText)| > 0;
    case TooShort(n) => assert |MinLengthMessage(n)| > 0;
    case TooLong(n) => assert |MaxLengthMessage(n)| > 0;
    case BadFormat => assert |PatternMessage(labelText)| > 0;
    case BelowMin(n) => assert |MinMessage(n)| > 0;
    case AboveMax(n) => assert |MaxMessage(n)| > 0;
    case _ =>
  }

  /** The verdict is acceptance exactly when every rule holds and the custom
      validator (if any) accepts. */
  lemma AcceptedIffRulesHold(c: FieldConfig, v: Value, data: FormData)
    ensures Check(c, v, data) == Accepted <==> BuiltinRulesHold(c, v) && CustomAccepts(c, v, data)
    ensures Check(c, v, data).Rejected? ==> Check(c, v, data).message != ""
  {
    IsEmptyIsBlank(v);
  }

  /** A field is valid exactly when every rule holds and the custom validator
      (if any) returns `null` or `""`. */
  lemma ValidIffRulesHold(c: FieldConfig, v: Value, data: FormData)
    ensures ValidateField(c, v, data) == "" <==> BuiltinRulesHold(c, v) && CustomAccepts(c, v, data)
  {
    AcceptedIffRulesHold(c, v, data);
    MessageEmptyIffAccepted(Check(c, v, data), c.labelText);
  }

  /** The custom validator runs only once every built-in rule holds: when one
      fails, neither the validator nor the rest of the form data matters. */
  lemma CustomRunsLast(c: FieldConfig, v: Value, data: FormData, other: Option<CustomValidator>, otherData: FormData)
    ensures BuiltinRulesHold(c, v) ==> Check(c, v, data) == CustomVerdict(c, v, data)
    ensures !BuiltinRulesHold(c, v) ==>
      ValidateField(c, v, data) == ValidateField(c.(customValidator := other), v, otherData)
  {
    IsEmptyIsBlank(v);
    var c' := c.(customValidator := other);
    if !BuiltinRulesHold(c, v) {
      StringVerdictSeesTrimmed(c, c', v, v);
      NumberVerdictSeesBounds(c.rules, c'.rules, v);
      assert Check(c, v, data) == Check(c', v, otherData);
    }
  }

  /** First failure wins: each check's verdict is reported when every earlier
      check passed, whatever the later checks would have said. */
  lemma FirstFailureWins(c: FieldConfig, v: Value, data: FormData)
    ensures c.rules.required && Blank(v) ==> Check(c, v, data) == Missing
    ensures RequiredHolds(c, v) && v.Str? && !AllWhitespace(v.s) ==>
      var len := Utf16Length(Trim(v.s));
      && (MinLengthApplies(c.rules) && len < c.rules.minLength.value ==>
            Check(c, v, data) == TooShort(c.rules.minLength.value))
      && ((MinLengthApplies(c.rules) ==> len >= c.rules.minLength.value) &&
          MaxLengthApplies(c.rules) && len > c.rules.maxLength.value ==>
            Check(c, v, data) == TooLong(c.rules.maxLength.value))
      && (LengthHolds(c.rules, len) && !PatternHolds(c.rules, Trim(v.s)) ==>
            Check(c, v, data) == BadFormat)
    ensures RequiredHolds(c, v) && v.Num? ==>
      && (c.rules.min.Some? && v.n < c.rules.min.value ==>
            Check(c, v, data) == BelowMin(c.rules.min.value))
      && ((c.rules.min.Some? ==> c.rules.min.value <= v.n) &&
          c.rules.max.Some? && v.n > c.rules.max.value ==>
            Check(c, v, data) == AboveMax(c.rules.max.value))
  {
    IsEmptyIsBlank(v);
  }

  /** A required field rejects each kind of missing value with the same message:
      `''` or whitespace, `undefined`, NaN and `false`. */
  lemma RequiredRejectsBlank(c: FieldConfig, data: FormData, spaces: string)
    requires c.rules.required && AllWhitespace(spaces)
    ensures ValidateField(c, Str(spaces), data) == RequiredMessage(c.labelText)
    ensures ValidateField(c, Str(""), data) == RequiredMessage(c.labelText)
    ensures ValidateField(c, Absent, data) == RequiredMessage(c.labelText)
    ensures ValidateField(c, NaN, data) == RequiredMessage(c.labelText)
    ensures ValidateField(c, Bool(false), data) == RequiredMessage(c.labelText)
  {
    IsEmptyIsBlank(Str(spaces));
  }

  /** For a value that is present (which includes the number 0 and `true`), the
      required flag changes nothing. */
  lemma RequiredIgnoredWhenPresent(c: FieldConfig, v: Value, data: FormData)
    requires !Blank(v)
    ensures ValidateField(c, v, data) == ValidateField(c.(rules := c.rules.(required := false)), v, data)
  {
    var c' := c.(rules := c.rules.(required := false));
    RequiredFlagOnlyGatesMissing(c, v, data);
    IsEmptyIsBlank(v);
    assert Check(c, v, data) == Check(c', v, data);
  }

  /** Dropping the required flag leaves the other three stages as they are. */
  lemma RequiredFlagOnlyGatesMissing(c: FieldConfig, v: Value, data: FormData)
    ensures StringVerdict(c, v) == StringVerdict(c.(rules := c.rules.(required := false)), v)
    ensures NumberVerdict(c.rules, v) == NumberVerdict(c.rules.(required := false), v)
    ensures CustomVerdict(c, v, data) == CustomVerdict(c.(rules := c.rules.(required := false)), v, data)
  {
    var c' := c.(rules := c.rules.(required := false));
    StringVerdictSeesTrimmed(c, c', v, v);
    NumberVerdictSeesBounds(c.rules, c'.rules, v);
  }

  /** A blank value of an optional field gets no built-in error at all: only its
      custom validator, if any, can object. */
  lemma OptionalBlankReachesOnlyCustom(c: FieldConfig, v: Value, data: FormData)
    requires !c.rules.required && Blank(v)
    ensures Check(c, v, data) == CustomVerdict(c, v, data)
  {
  }

  /** The string rules never affect a value that is not a string. */
  lemma StringRulesOnlyForStrings(c: FieldConfig, v: Value, data: FormData)
    requires !v.Str?
    ensures ValidateField(c, v, data) ==
      ValidateField(c.(rules := c.rules.(minLength := None, maxLength := None, pattern := None)), v, data)
  {
    var c' := c.(rules := c.rules.(minLength := None, maxLength := None, pattern := None));
    NumberVerdictSeesBounds(c.rules, c'.rules, v);
    assert CustomVerdict(c, v, data) == CustomVerdict(c', v, data);
    SameStagesSameVerdict(c, c', v, v, data, data);
  }

  /** The number rules never affect a value that is not a number, NaN included. */
  lemma NumberRulesOnlyForNumbers(c: FieldConfig, v: Value, data: FormData)
    requires !v.Num?
    ensures ValidateField(c, v, data) == ValidateField(c.(rules := c.rules.(min := None, max := None)), v, data)
  {
    var c' := c.(rules := c.rules.(min := None, max := None));
    StringVerdictSeesTrimmed(c, c', v, v);
    assert CustomVerdict(c, v, data) == CustomVerdict(c', v, data);
    SameStagesSameVerdict(c, c', v, v, data, data);
  }

  /** Two evaluations that agree on every stage agree on the verdict. */
  lemma SameStagesSameVerdict(c1: FieldConfig, c2: FieldConfig, v1: Value, v2: Value, d1: FormData, d2: FormData)
    requires c1.rules.required == c2.rules.required
    requires IsEmpty(v1) == IsEmpty(v2)
    requires StringVerdict(c1, v1) == StringVerdict(c2, v2)
    requires NumberVerdict(c1.rules, v1) == NumberVerdict(c2.rules, v2)
    requires CustomVerdict(c1, v1, d1) == CustomVerdict(c2, v2, d2)
    ensures Check(c1, v1, d1) == Check(c2, v2, d2)
  {
  }

  /** The number block reads only the two numeric bounds. */
  lemma NumberVerdictSeesBounds(r1: Rules, r2: Rules, v: Value)
    requires r1.min == r2.min && r1.max == r2.max
    ensures NumberVerdict(r1, v) == NumberVerdict(r2, v)
  {
  }

  /** The string block reads only the trimmed text and the string rules. */
  lemma StringVerdictSeesTrimmed(c1: FieldConfig, c2: FieldConfig, v1: Value, v2: Value)
    requires c1.rules.minLength == c2.rules.minLength && c1.rules.maxLength == c2.rules.maxLength
    requires c1.rules.pattern == c2.rules.pattern
    requires v1.Str? == v2.Str? && (v1.Str? ==> Trim(v1.s) == Trim(v2.s))
    ensures StringVerdict(c1, v1) == StringVerdict(c2, v2)
  {
    if v1.Str? && Trim(v1.s) != "" {
      TextVerdictSeesRules(c1.rules, c2.rules, Trim(v1.s));
    }
  }

  lemma TextVerdictSeesRules(r1: Rules, r2: Rules, t: string)
    requires MinLengthApplies(r1) == MinLengthApplies(r2)
    requires MaxLengthApplies(r1) == MaxLengthApplies(r2)
    requires MinLengthApplies(r1) ==> r1.minLength == r2.minLength
    requires MaxLengthApplies(r1) ==> r1.maxLength == r2.maxLength
    requires r1.pattern == r2.pattern
    ensures TextVerdict(r1, t) == TextVerdict(r2, t)
  {
  }

  /** A length bound of 0 is the same as no bound. */
  lemma ZeroLengthBoundSkipped(c: FieldConfig, v: Value, data: FormData)
    ensures ValidateField(c.(rules := c.rules.(minLength := Some(0))), v, data) ==
            ValidateField(c.(rules := c.rules.(minLength := None)), v, data)
    ensures ValidateField(c.(rules := c.rules.(maxLength := Some(0))), v, data) ==
            ValidateField(c.(rules := c.rules.(maxLength := None)), v, data)
  {
    var c0, c1 := c.(rules := c.rules.(minLength := Some(0))), c.(rules := c.rules.(minLength := None));
    ZeroLengthBoundText(c0, c1, v);
    NumberVerdictSeesBounds(c0.rules, c1.rules, v);
    assert CustomVerdict(c0, v, data) == CustomVerdict(c1, v, data);
    SameStagesSameVerdict(c0, c1, v, v, data, data);
    var c2, c3 := c.(rules := c.rules.(maxLength := Some(0))), c.(rules := c.rules.(maxLength := None));
    ZeroLengthBoundText(c2, c3, v);
    NumberVerdictSeesBounds(c2.rules, c3.rules, v);
    assert CustomVerdict(c2, v, data) == CustomVerdict(c3, v, data);
    SameStagesSameVerdict(c2, c3, v, v, data, data);
  }

  lemma ZeroLengthBoundText(c1: FieldConfig, c2: FieldConfig, v: Value)
    requires c1.rules.pattern == c2.rules.pattern
    requires MinLengthApplies(c1.rules) == MinLengthApplies(c2.rules)
    requires MaxLengthApplies(c1.rules) == MaxLengthApplies(c2.rules)
    requires MinLengthApplies(c1.rules) ==> c1.rules.minLength == c2.rules.minLength
    requires MaxLengthApplies(c1.rules) ==> c1.rules.maxLength == c2.rules.maxLength
    ensures StringVerdict(c1, v) == StringVerdict(c2, v)
  {
    if v.Str? && Trim(v.s) != "" {
      TextVerdictSeesRules(c1.rules, c2.rules, Trim(v.s));
    }
  }

  /** A numeric bound of 0 is enforced, unlike a length bound of 0: a negative
      number is rejected, where without the bounds only the custom validator
      could object. */
  lemma ZeroNumericBoundEnforced(c: FieldConfig, n: int, data: FormData)
    requires c.rules.min == Some(0) && n < 0
    ensures ValidateField(c, Num(n), data) == "Must be at least 0"
    ensures Check(c.(rules := c.rules.(min := None, max := None)), Num(n), data) == CustomVerdict(c, Num(n), data)
  {
    assert IntToString(0) == "0";
    var c' := c.(rules := c.rules.(min := None, max := None));
    assert CustomVerdict(c', Num(n), data) == CustomVerdict(c, Num(n), data);
  }

  /** A trimmed text padded with whitespace on either side gets the verdict of the
      bare text from a field without a custom validator. */
  lemma PaddingIgnored(c: FieldConfig, p: string, t: string, q: string, data: FormData)
    requires c.customValidator.None?
    requires AllWhitespace(p) && AllWhitespace(q) && IsTrimmed(t)
    ensures ValidateField(c, Str(p + t + q), data) == ValidateField(c, Str(t), data)
  {
    TrimPadded(p, t, q);
    TrimPadded([], t, []);
    assert [] + t + [] == t;
    SameTrimSameVerdict(c, p + t + q, t, data);
  }

  /** Surrounding whitespace never changes the verdict of the built-in rules: they
      see only the trimmed text, so two strings with the same trim get the same
      verdict (`TrimPadded` says which paddings those are). A custom validator
      receives the raw value, so it is excluded. */
  lemma SameTrimSameVerdict(c: FieldConfig, s1: string, s2: string, data: FormData)
    requires c.customValidator.None?
    requires Trim(s1) == Trim(s2)
    ensures ValidateField(c, Str(s1), data) == ValidateField(c, Str(s2), data)
  {
    SameTrimSameStages(c, s1, s2, data);
    SameStagesSameVerdict(c, c, Str(s1), Str(s2), data, data);
  }

  lemma SameTrimSameStages(c: FieldConfig, s1: string, s2: string, data: FormData)
    requires c.customValidator.None?
    requires Trim(s1) == Trim(s2)
    ensures IsEmpty(Str(s1)) == IsEmpty(Str(s2))
    ensures StringVerdict(c, Str(s1)) == StringVerdict(c, Str(s2))
    ensures NumberVerdict(c.rules, Str(s1)) == NumberVerdict(c.rules, Str(s2))
    ensures CustomVerdict(c, Str(s1), data) == CustomVerdict(c, Str(s2), data)
  {
    StringVerdictSeesTrimmed(c, c, Str(s1), Str(s2));
  }
}
