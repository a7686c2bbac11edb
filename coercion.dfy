/** The coercion step of the change handler: the raw input event becomes the
    typed value stored for the field. */
module Coercion {
  import opened JsText
  import opened FormValues
  import opened Fields
  import opened Validation

  /** What the handler reads from the event target: `checked`, `value`, and
      `valueAsNumber`, where `None` is NaN (the input does not parse). */
  datatype InputEvent = InputEvent(checked: bool, value: string, valueAsNumber: Option<int>)

  predicate IsNumberField(c: FieldConfig) {
    c.inputType == Some(Number)
  }

  function Coerce(c: FieldConfig, e: InputEvent): (v: Value)
    ensures Settled(v)
  {
    if c.component == Checkbox then Bool(e.checked)
    else if IsNumberField(c) then
      match e.valueAsNumber
      case None => Str("")
      case Some(n) => Num(n)
    else Str(e.value)
  }

  /** Which events leave a field blank for the required rule: an unchecked
      checkbox, a number input that does not parse, or any other input whose raw
      text is whitespace only. */
  lemma CoercedBlank(c: FieldConfig, e: InputEvent)
    ensures Blank(Coerce(c, e)) <==>
      || (c.component == Checkbox && !e.checked)
      || (c.component != Checkbox && IsNumberField(c) && e.valueAsNumber == None)
      || (c.component != Checkbox && !IsNumberField(c) && AllWhitespace(e.value))
  {
  }

  /** An unparseable number is stored as `''`, so a required number field
      reports it as missing rather than as a bad number. */
  lemma UnparsedNumberIsMissing(c: FieldConfig, e: InputEvent, data: FormData)
    requires c.component != Checkbox && IsNumberField(c) && e.valueAsNumber == None
    requires c.rules.required
    ensures ValidateField(c, Coerce(c, e), data) == RequiredMessage(c.labelText)
  {
  }

  /** An unchecked required checkbox is missing too. */
  lemma UncheckedRequiredCheckboxIsMissing(c: FieldConfig, e: InputEvent, data: FormData)
    requires c.component == Checkbox && !e.checked && c.rules.required
    ensures ValidateField(c, Coerce(c, e), data) == RequiredMessage(c.labelText)
  {
  }
}
