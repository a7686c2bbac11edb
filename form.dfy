/** The `DynamicForm` component's state and its two event handlers. The two React
    state cells become fields that each handler replaces wholesale. */
module Form {
  import opened FormValues
  import opened Fields
  import opened Validation
  import opened Coercion
  import opened Passes
  import opened JsText
  import opened Schema

  class DynamicForm {
    const schema: seq<FieldConfig>
    /** The `formData` state. */
    var formData: FormData
    /** The `errors` state. */
    var errors: map<string, string>
    /** The data handed to the submission sink, one entry per successful submit. */
    var submissions: seq<FormData>

    /** Every stored value came through coercion, so it is never `undefined` or
        NaN (`StoredValues` draws the consequence for `formData[key]`). */
    ghost predicate Valid()
      reads this
    {
      forall k :: k in formData ==> Settled(formData[k])
    }

    /** The form is in its error state when some error message is showing. */
    predicate ShowsErrors()
      reads this
    {
      exists k :: k in errors && errors[k] != ""
    }

    /** Both state cells start as empty objects. */
    constructor (schema: seq<FieldConfig>)
      ensures Valid()
      ensures this.schema == schema
      ensures formData == map[] && errors == map[] && submissions == []
    {
      this.schema := schema;
      formData := map[];
      errors := map[];
      submissions := [];
    }

    /** `handleChange(config, e)`: store the coerced value under `config.key`, then
        rebuild the whole error map against the new data. */
    method HandleChange(config: FieldConfig, e: InputEvent)
      requires Valid()
      modifies this
      ensures Valid()
      ensures formData == old(formData)[config.key := Coerce(config, e)]
      ensures errors == ErrorMap(schema, formData)
      ensures submissions == old(submissions)
    {
      var val := Coerce(config, e);
      var newFormData := formData[config.key := val];
      formData := newFormData;
      var newErrors := map[];
      for i := 0 to |schema|
        invariant newErrors == ErrorMap(schema[..i], newFormData)
      {
        var c := schema[i];
        newErrors := newErrors[c.key := ValidateField(c, Get(newFormData, c.key), newFormData)];
        assert schema[..i + 1][..i] == schema[..i];
      }
      assert schema[..|schema|] == schema;
      errors := newErrors;
    }

    /** `handleSubmit()`: rebuild the error map against the current data, and hand
        the data to the sink iff no field has an error. */
    method HandleSubmit() returns (submitted: bool)
      requires Valid()
      modifies this
      ensures Valid()
      ensures formData == old(formData)
      ensures errors == ErrorMap(schema, formData)
      ensures submitted == !AnyError(schema, formData)
      ensures submissions == if submitted then old(submissions) + [formData] else old(submissions)
      ensures old(errors) == ErrorMap(schema, formData) ==> errors == old(errors)
      ensures UniqueKeys(schema) ==> (submitted <==> !ShowsErrors())
    {
      var data := formData;
      var newErrors := map[];
      var hasError := false;
      for i := 0 to |schema|
        invariant newErrors == ErrorMap(schema[..i], data)
        invariant hasError == AnyError(schema[..i], data)
        invariant formData == data && submissions == old(submissions)
      {
        var c := schema[i];
        var err := ValidateField(c, Get(data, c.key), data);
        newErrors := newErrors[c.key := err];
        if err != "" {
          hasError := true;
        }
        assert schema[..i + 1][..i] == schema[..i];
        AnyErrorStep(schema, data, i);
      }
      assert schema[..|schema|] == schema;
      errors := newErrors;
      if UniqueKeys(schema) {
        AnyErrorIffMessage(schema, data);
      }
      submitted := !hasError;
      if submitted {
        submissions := submissions + [formData];
      }
    }
  }

  /** On a form built by the handlers, `formData[key]` never reads as NaN, and it
      reads as `undefined` only for a key that was never edited. */
  lemma StoredValues(form: DynamicForm, k: string)
    requires form.Valid()
    ensures Get(form.formData, k) != NaN
    ensures Get(form.formData, k) == Absent <==> k !in form.formData
  {
  }

  /** After a submit on a schema with unique keys, the form submitted exactly when
      it shows no error. */
  lemma SubmittedIffNoErrorShown(schema: seq<FieldConfig>, data: FormData)
    requires UniqueKeys(schema)
    ensures !AnyError(schema, data) <==>
      forall k :: k in ErrorMap(schema, data) ==> ErrorMap(schema, data)[k] == ""
  {
    AnyErrorIffMessage(schema, data);
  }

  /** The change cascade on the default schema: for a confirmation that passes
      its own required and length rules, retyping `password` to its text clears
      the confirmation error, although the confirmation field itself was not
      edited. */
  method RetypePassword(form: DynamicForm, env: Env, e: InputEvent)
    requires form.Valid() && form.schema == FieldConfigs(env)
    requires Get(form.formData, "confirmPassword") == Str(e.value)
    requires !AllWhitespace(e.value) && Utf16Length(Trim(e.value)) >= 8
    modifies form
    ensures form.formData == old(form.formData)["password" := Str(e.value)]
    ensures "confirmPassword" in form.errors && form.errors["confirmPassword"] == ""
  {
    PasswordFields(env);
    assert Coerce(PasswordField, e) == Str(e.value);
    form.HandleChange(PasswordField, e);
    KeysUnique(env);
    ConfirmationFollowsPassword(old(form.formData), e.value, e.value + "!");
    ErrorMapEntry(form.schema, form.formData, ConfirmPasswordIndex);
  }
}
