/** The field descriptor: one entry of the form's schema, as plain data. */
module Fields {
  import opened FormValues

  /** Which control renders the field. */
  datatype Component = Input | Select | Checkbox | Textarea

  /** The `type` attribute of an input. */
  datatype InputType = Text | Email | Tel | Number | Password | DateInput

  /** A pattern rule: whether the (trimmed) string matches the field's regular
      expression. The regular expression engine is not modelled. */
  type Pattern = string -> bool

  /** A custom validator: given the whole form data and this field's value, an
      error message or `null`. */
  type CustomValidator = (FormData, Value) -> Option<string>

  /** The `rules` record; a missing property is `None`. */
  datatype Rules = Rules(
    required: bool,
    minLength: Option<int>,
    maxLength: Option<int>,
    pattern: Option<Pattern>,
    min: Option<int>,
    max: Option<int>)

  datatype FieldConfig = FieldConfig(
    key: string,
    labelText: string,
    component: Component,
    inputType: Option<InputType>,
    rules: Rules,
    customValidator: Option<CustomValidator>,
    options: Option<seq<string>>)
}
