/** The default schema (`fieldConfigs`): twenty field descriptors in render and
    validation order. The regular expressions, the date parser and the clock are
    not modelled; they come in through `Env`. */
module Schema {
  import opened JsText
  import opened FormValues
  import opened Fields
  import opened Validation
  import opened CustomValidators
  import opened Passes

  /** The foreign pieces the schema closes over. `email`, `phone` (also used by
      the emergency contact), `zip` and `username` are the four regular
      expressions; `parseDate` is date parsing; `today` is the current date. */
  datatype Env = Env(
    email: Pattern,
    phone: Pattern,
    zip: Pattern,
    username: Pattern,
    parseDate: string -> Option<Date>,
    today: Date)

  function NoRules(required: bool): Rules {
    Rules(required, None, None, None, None, None)
  }

  function MinLen(n: int): Rules {
    Rules(true, Some(n), None, None, None, None)
  }

  function Matching(p: Pattern): Rules {
    Rules(true, None, None, Some(p), None, None)
  }

  function TextField(key: string, labelText: string, rules: Rules): FieldConfig {
    FieldConfig(key, labelText, Input, Some(Text), rules, None, None)
  }

  function SelectField(key: string, labelText: string, options: seq<string>): FieldConfig {
    FieldConfig(key, labelText, Select, None, NoRules(true), None, Some(options))
  }

  const PasswordIndex: nat := 11
  const ConfirmPasswordIndex: nat := 12
  const SalaryIndex: nat := 19

  const PasswordField: FieldConfig :=
    FieldConfig("password", "Password", Input, Some(Password), MinLen(8), None, None)

  const ConfirmPasswordField: FieldConfig :=
    FieldConfig("confirmPassword", "Confirm Password", Input, Some(Password), MinLen(8), Some(ConfirmPassword), None)

  function FieldConfigs(env: Env): seq<FieldConfig> {
    [ TextField("firstName", "First Name", MinLen(2)),
      TextField("lastName", "Last Name", MinLen(2)),
      FieldConfig("email", "Email", Input, Some(Email), Matching(env.email), None, None),
      FieldConfig("phone", "Phone Number", Input, Some(Tel), Matching(env.phone), None, None),
      FieldConfig("age", "Age", Input, Some(Number), Rules(true, None, None, None, Some(18), Some(100)), None, None),
      TextField("address", "Address", MinLen(10)),
      TextField("city", "City", MinLen(2)),
      SelectField("state", "State", ["California", "New York", "Texas", "Florida", "Illinois"]),
      TextField("zip", "ZIP Code", Matching(env.zip)),
      TextField("country", "Country", MinLen(2)),
      TextField("username", "Username", Rules(true, Some(3), Some(20), Some(env.username), None, None)),
      PasswordField,
      ConfirmPasswordField,
      FieldConfig("dob", "Date of Birth", Input, Some(DateInput), NoRules(true),
        Some((data: FormData, v: Value) => DobValidator(env.parseDate, env.today, v)), None),
      SelectField("gender", "Gender", ["Male", "Female", "Other"]),
      FieldConfig("subscribe", "Subscribe to Newsletter", Checkbox, None, NoRules(false), None, None),
      FieldConfig("comments", "Comments", Textarea, Some(Text), Rules(false, None, Some(500), None, None, None), None, None),
      FieldConfig("emergencyContact", "Emergency Contact Phone", Input, Some(Tel), Matching(env.phone), None, None),
      TextField("relation", "Relation to Emergency Contact", MinLen(2)),
      FieldConfig("salary", "Expected Salary", Input, Some(Number), Rules(false, None, None, None, Some(0), Some(1000000)), None, None)
    ]
  }

  /** The schema's keys in order. */
  const SchemaKeys: seq<string> := [
    "firstName", "lastName", "email", "phone", "age", "address", "city", "state", "zip", "country",
    "username", "password", "confirmPassword", "dob", "gender", "subscribe", "comments",
    "emergencyContact", "relation", "salary"]

  /** Keys are told apart by their length and first letter. */
  lemma KeyDiffersFromLater(i: nat)
    requires i < |SchemaKeys|
    ensures forall j :: i < j < |SchemaKeys| ==> SchemaKeys[i] != SchemaKeys[j]
  {
    forall j | i < j < |SchemaKeys| ensures SchemaKeys[i] != SchemaKeys[j] {
      assert |SchemaKeys[i]| != |SchemaKeys[j]| || SchemaKeys[i][0] != SchemaKeys[j][0];
    }
  }

  lemma FieldKeys(env: Env)
    ensures |FieldConfigs(env)| == |SchemaKeys|
    ensures forall i :: 0 <= i < |SchemaKeys| ==> FieldConfigs(env)[i].key == SchemaKeys[i]
  {
    var s := FieldConfigs(env);
    forall i | 0 <= i < |SchemaKeys| ensures s[i].key == SchemaKeys[i] {
    }
  }

  /** The schema's keys are unique, so each error entry belongs to one field. */
  lemma KeysUnique(env: Env)
    ensures UniqueKeys(FieldConfigs(env))
  {
    FieldKeys(env);
    forall i, j | 0 <= i < j < |SchemaKeys|
      ensures FieldConfigs(env)[i].key != FieldConfigs(env)[j].key
    {
      KeyDiffersFromLater(i);
    }
  }

  /** Every optional field of the schema accepts a blank value: none of them has a
      custom validator. */
  lemma BlankOptionalFieldsValid(env: Env, i: nat, v: Value, data: FormData)
    requires i < |FieldConfigs(env)| && !FieldConfigs(env)[i].rules.required && Blank(v)
    ensures ValidateField(FieldConfigs(env)[i], v, data) == ""
  {
    OptionalBlankReachesOnlyCustom(FieldConfigs(env)[i], v, data);
  }

  /** The salary's lower bound of 0 is enforced for any negative amount. */
  lemma NegativeSalaryRejected(env: Env, n: int, data: FormData)
    requires n < 0
    ensures FieldConfigs(env)[SalaryIndex].key == "salary"
    ensures ValidateField(FieldConfigs(env)[SalaryIndex], Num(n), data) == "Must be at least 0"
  {
    ZeroNumericBoundEnforced(FieldConfigs(env)[SalaryIndex], n, data);
  }

  /** Where the two password fields sit in the schema. */
  lemma PasswordFields(env: Env)
    ensures FieldConfigs(env)[ConfirmPasswordIndex] == ConfirmPasswordField
    ensures FieldConfigs(env)[PasswordIndex] == PasswordField
  {
  }

  /** The confirmation field's error follows the `password` entry. For a
      confirmation that passes its own required and length rules, setting
      `password` to its text clears the confirmation error without touching
      `confirmPassword`, and setting it to a different non-empty text raises the
      mismatch. (An empty password is falsy and raises nothing.) */
  lemma ConfirmationFollowsPassword(data: FormData, s: string, other: string)
    requires Get(data, "confirmPassword") == Str(s)
    requires !AllWhitespace(s) && Utf16Length(Trim(s)) >= 8
    requires other != "" && other != s
    ensures FieldError(ConfirmPasswordField, data["password" := Str(s)]) == ""
    ensures FieldError(ConfirmPasswordField, data["password" := Str(other)]) == PasswordMismatch
  {
    LongEnoughPasswordHolds(ConfirmPasswordField, s);
    var same, changed := data["password" := Str(s)], data["password" := Str(other)];
    GetAfterUpdate(data, "password", Str(s), "confirmPassword");
    GetAfterUpdate(data, "password", Str(s), "password");
    GetAfterUpdate(data, "password", Str(other), "confirmPassword");
    GetAfterUpdate(data, "password", Str(other), "password");
    ConfirmationVerdict(same, s);
    ConfirmationVerdict(changed, s);
  }

  /** A non-blank password whose trimmed text has at least 8 code units passes the
      built-in rules of a password field. */
  lemma LongEnoughPasswordHolds(c: FieldConfig, s: string)
    requires c.rules == MinLen(8)
    requires !AllWhitespace(s) && Utf16Length(Trim(s)) >= 8
    ensures BuiltinRulesHold(c, Str(s))
  {
  }

  /** Once its built-in rules hold, the confirmation field's error is decided by
      the password entry alone. */
  lemma ConfirmationVerdict(data: FormData, s: string)
    requires Get(data, "confirmPassword") == Str(s)
    requires BuiltinRulesHold(ConfirmPasswordField, Str(s))
    ensures FieldError(ConfirmPasswordField, data) ==
      if Truthy(Get(data, "password")) && Str(s) != Get(data, "password") then PasswordMismatch else ""
  {
    var c := ConfirmPasswordField;
    CustomRunsLast(c, Str(s), data, None, data);
    assert Check(c, Str(s), data) == CustomVerdict(c, Str(s), data);
    ConfirmationCustomVerdict(data, Str(s));
    assert FieldError(c, data) == Message(Check(c, Str(s), data), c.labelText);
  }

  /** The confirmation field's custom verdict is the password comparison. */
  lemma ConfirmationCustomVerdict(data: FormData, v: Value)
    ensures CustomVerdict(ConfirmPasswordField, v, data) ==
      if Truthy(v) && Truthy(Get(data, "password")) && v != Get(data, "password")
      then Rejected(PasswordMismatch) else Accepted
  {
    assert ConfirmPasswordField.customValidator.value(data, v) == ConfirmPassword(data, v);
  }
}
