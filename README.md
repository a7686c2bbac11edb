# DynamicForm validation engine, modelled in Dafny

`DynamicForm` (`src/Forms.jsx`) renders a form from a static list of twenty field
descriptors (`fieldConfigs`). Each descriptor has a set of rules: a required flag,
minimum and maximum lengths, a regular-expression pattern, numeric bounds and an
optional custom validator. On every change the component coerces the new input
into a typed value. It stores that value, then recomputes the error of every
field against the new data. On submit it recomputes every error again. The
data goes to the submission sink only when no field has an error.

This project models that engine:

- `text.dfy` (module `JsText`): the JavaScript string operations the rules use.
  These are `trim` over ECMAScript's whitespace set, `length` counted in UTF-16
  code units, and the decimal rendering of a bound inside a message.
- `values.dfy` (`FormValues`): the dynamically typed field value as a tagged
  union `Absent | Str | Num | NaN | Bool`, JavaScript truthiness, and
  `formData[key]`.
- `fields.dfy` (`Fields`): the field descriptor and its `rules` record. A pattern
  is an opaque `string -> bool`. A custom validator is a function
  `(FormData, Value) -> Option<string>`.
- `validation.dfy` (`Validation`): `validateField`, its four check stages, a
  declarative statement of the rules, and the lemmas relating the two. The
  evaluator first computes a `Verdict`, which names the check that decided the
  outcome. It then renders the verdict as the message the code returns.
- `validators.dfy` (`CustomValidators`): the password-confirmation validator and
  the date-of-birth validator, with its whole-years age arithmetic.
- `coercion.dfy` (`Coercion`): the value coercion at the top of `handleChange`.
- `passes.dfy` (`Passes`): the whole-schema pass that builds a fresh error map
  in schema order, and the `hasError` aggregate.
- `form.dfy` (`Form`): the component as a class. Its `formData` and `errors`
  fields are replaced wholesale by `HandleChange` and `HandleSubmit`, each a
  loop over the schema. A `submissions` log records what reaches the sink.
- `schema.dfy` (`Schema`): the twenty `fieldConfigs` records as data, and facts
  about them. The four regular expressions, the date parser and the current
  date are parameters (`Env`).

An optional blank field still reaches its custom validator. Only the string and
number checks are skipped for it (`OptionalBlankReachesOnlyCustom`). In the
default schema no optional field has a custom validator, so every optional field
accepts a blank value (`BlankOptionalFieldsValid`). The two custom validators
accept falsy input (`''`, `undefined`). They do not accept every blank value: a
whitespace-only confirmation is truthy and can be rejected as a mismatch. Both
fields are required, so the required check reports such values first. The
confirmation check tests JavaScript truthiness and strict equality
(`ConfirmPassword`, `ConfirmationOfTexts`).

## Model

| member | source | states |
|---|---|---|
| JsText.Trim | src/Forms.jsx:75-76 | the trimmed value is empty exactly when the string is all whitespace; otherwise it starts and ends with non-whitespace |
| JsText.TrimPadded | src/Forms.jsx:75-76 | whitespace around a trimmed string is exactly what `trim` removes |
| JsText.TrimIdempotent | src/Forms.jsx:76 | trimming the trimmed value changes nothing |
| JsText.Utf16Length | src/Forms.jsx:77-80 | `length` counts UTF-16 code units: at least one and at most two per character |
| JsText.Utf16LengthOfBmp | src/Forms.jsx:77-80 | for text inside the Basic Multilingual Plane, `length` is the number of characters |
| JsText.NatToString | src/Forms.jsx:78 | a bound renders as decimal digits, without leading zeros, that denote the bound |
| JsText.IntToString | src/Forms.jsx:91 | `${n}` is non-empty: a bound of 0 or more renders as its decimal digits without leading zeros; a negative bound as a minus sign followed by the digits of its magnitude, without leading zeros |
| JsText.IntToStringInjective | src/Forms.jsx:91-94 | different bounds give different messages |
| FormValues.GetAfterUpdate | src/Forms.jsx:120 | `{ ...formData, [key]: val }` changes what `key` reads to `val` and what every other key reads not at all |
| Validation.StringVerdict | src/Forms.jsx:75-86 | the string block passes exactly when a non-blank string satisfies the length and pattern rules on its trimmed text; otherwise it reports too short, too long or bad format |
| Validation.TextVerdict | src/Forms.jsx:77-85 | on the trimmed text, the block passes exactly when the active length bounds and the pattern hold |
| Validation.NumberVerdict | src/Forms.jsx:89-96 | the number block passes exactly when a number lies within the bounds that are set; NaN and non-numbers always pass |
| Validation.CustomVerdict | src/Forms.jsx:99-104 | the custom stage accepts exactly when there is no validator or it returns `null` or `""`; otherwise it rejects with the validator's own non-empty message |
| Validation.MessageEmptyIffAccepted | src/Forms.jsx:69-106 | every rejection the evaluator can return renders as a non-empty message; only acceptance renders as `''` |
| Validation.IsEmptyIsBlank | src/Forms.jsx:59-68 | the required rule's emptiness test holds exactly for `undefined`/`null`, NaN, `false` and whitespace-only strings |
| Validation.AcceptedIffRulesHold | src/Forms.jsx:54-107 | the verdict is acceptance exactly when every built-in rule holds and the custom validator accepts; a custom rejection always carries a message |
| Validation.ValidIffRulesHold | src/Forms.jsx:54-107 | `validateField` returns `""` exactly when every built-in rule holds and the custom validator accepts |
| Validation.CustomRunsLast | src/Forms.jsx:98-106 | when the built-in rules hold, the verdict is the custom stage's; when one fails, neither the validator nor the rest of the data affects the result |
| Validation.FirstFailureWins | src/Forms.jsx:58-96 | required, then minLength, maxLength, pattern, min, max: each check's verdict, carrying its bound, is reported when every earlier check passed, whatever the later checks would say |
| Validation.RequiredRejectsBlank | src/Forms.jsx:58-71 | a required field gives `"{label} is required"` for `''`, a whitespace-only string, `undefined`, NaN and `false` |
| Validation.RequiredIgnoredWhenPresent | src/Forms.jsx:58-72 | for a value that is present, the number 0 included, the required flag changes nothing |
| Validation.RequiredFlagOnlyGatesMissing | src/Forms.jsx:58-104 | the required flag is read by the required check alone; the string, number and custom stages do not depend on it |
| Validation.OptionalBlankReachesOnlyCustom | src/Forms.jsx:74-106 | a blank value of an optional field gets no built-in error; its verdict is the custom validator's alone |
| Validation.StringRulesOnlyForStrings | src/Forms.jsx:75-86 | removing the length and pattern rules never changes the result for a value that is not a string |
| Validation.NumberRulesOnlyForNumbers | src/Forms.jsx:89-96 | removing the numeric bounds never changes the result for a value that is not a number, NaN included |
| Validation.ZeroLengthBoundSkipped | src/Forms.jsx:77-81 | a length bound of 0 behaves as no bound, because of the `&&` guard |
| Validation.ZeroNumericBoundEnforced | src/Forms.jsx:89-92 | a minimum of 0 is enforced, because of the `!== undefined` guard: a negative number gets `"Must be at least 0"`, where without bounds only the custom validator could object |
| Validation.PaddingIgnored | src/Forms.jsx:75-86 | without a custom validator, whitespace padding around a trimmed text never changes the result |
| Validation.SameTrimSameStages | src/Forms.jsx:59-104 | two strings with the same trimmed text agree on every stage of a field without a custom validator |
| Validation.SameTrimSameVerdict | src/Forms.jsx:75-76 | two strings with the same trimmed text get the same result from a field without a custom validator |
| CustomValidators.ConfirmPassword | src/Forms.jsx:21-27 | the validator returns either `null` or `"Passwords do not match"` |
| CustomValidators.ConfirmationOfTexts | src/Forms.jsx:22-26 | for text entries, `"Passwords do not match"` exactly when both texts are non-empty and differ |
| CustomValidators.ConfirmationAccepted | src/Forms.jsx:22-26 | a confirmation equal to the password, or given while the password is falsy, is accepted |
| CustomValidators.AgeReached | src/Forms.jsx:36-40 | the whole-years age is at least n exactly when the n-th birthday is on or before today |
| CustomValidators.DobVerdict | src/Forms.jsx:31-43 | a falsy value gives `null`, an unparseable date gives `"Invalid date"`, and otherwise there is an error exactly when the 18th birthday is after today |
| CustomValidators.EighteenTodayAccepted | src/Forms.jsx:36-42 | someone whose 18th birthday is today is accepted |
| CustomValidators.OneDayShortRejected | src/Forms.jsx:36-41 | someone whose 18th birthday falls on the next day of the same month gets `"Must be at least 18 years old"` (other dates after today are covered by `DobVerdict`) |
| Coercion.Coerce | src/Forms.jsx:110-118 | coercion never stores `undefined` or NaN |
| Coercion.CoercedBlank | src/Forms.jsx:111-118 | the stored value is blank for the required rule exactly when a checkbox is unchecked, a number input does not parse, or another input's raw text is whitespace only |
| Coercion.UnparsedNumberIsMissing | src/Forms.jsx:113-115 | unparseable input in a required number field is reported as missing |
| Coercion.UncheckedRequiredCheckboxIsMissing | src/Forms.jsx:111-112 | an unchecked required checkbox is reported as missing |
| Passes.ErrorMap | src/Forms.jsx:124-127 | the new error map has an entry for every schema key and for nothing else |
| Passes.ErrorMapEntry | src/Forms.jsx:125-127 | with unique keys, each field's entry is `validateField` of that field against the data |
| Passes.AnyErrorStep | src/Forms.jsx:135-139 | visiting one more field sets `hasError` exactly when that field has an error |
| Passes.AnyErrorIffMessage | src/Forms.jsx:134-140 | with unique keys, `hasError` is true exactly when the new error map holds a non-empty message |
| Passes.BlankRequiredFieldIsError | src/Forms.jsx:135-141 | a required field left blank always sets `hasError` |
| Passes.OwnValueOnly | src/Forms.jsx:123-127 | changing another field never changes the error of a field without a custom validator; only custom validators need the full revalidation |
| Form.DynamicForm.constructor | src/Forms.jsx:4-5 | both state cells start empty |
| Form.DynamicForm.HandleChange | src/Forms.jsx:109-129 | the new data is the old data with only `config.key` replaced by the coerced value; the new error map is the full pass over the new data; nothing is submitted |
| Form.DynamicForm.HandleSubmit | src/Forms.jsx:131-145 | the data is unchanged; the error map is the full pass; the sink gets the data exactly once iff no field has an error; a second submit on unchanged data gives the same error map; with unique keys, it submits exactly when no error message is showing afterwards |
| Form.StoredValues | src/Forms.jsx:109-121 | on a form built by the handlers, `formData[key]` never reads as NaN, and reads as `undefined` only for a key never edited |
| Form.SubmittedIffNoErrorShown | src/Forms.jsx:133-144 | with unique keys, the gate opens exactly when every entry of the new error map is empty |
| Form.RetypePassword | src/Forms.jsx:120-128 | on the default schema, for a confirmation that passes its own required and length rules (non-blank, trimmed length at least 8), retyping `password` to the confirmation's text clears the confirmation error without editing that field |
| Schema.FieldKeys | src/Forms.jsx:7-52 | the schema lists its twenty keys in render order |
| Schema.KeyDiffersFromLater | src/Forms.jsx:7-52 | no key of the schema recurs later in the list |
| Schema.KeysUnique | src/Forms.jsx:7-52 | the schema's keys are unique |
| Schema.BlankOptionalFieldsValid | src/Forms.jsx:47-51 | every optional field of the schema accepts a blank value |
| Schema.NegativeSalaryRejected | src/Forms.jsx:51 | a negative salary gets `"Must be at least 0"` |
| Schema.PasswordFields | src/Forms.jsx:19-20 | the password and confirmation descriptors sit at positions 11 and 12 |
| Schema.LongEnoughPasswordHolds | src/Forms.jsx:19-20 | a non-blank text whose trim has at least 8 code units passes the built-in rules of a password field |
| Schema.ConfirmationCustomVerdict | src/Forms.jsx:20-27 | the confirmation field's custom stage rejects with `"Passwords do not match"` exactly when both values are truthy and differ |
| Schema.ConfirmationVerdict | src/Forms.jsx:20-27 | once its built-in rules hold, the confirmation field's error is decided by the password entry alone |
| Schema.ConfirmationFollowsPassword | src/Forms.jsx:20-27 | for a confirmation that passes its own required and length rules, setting `password` to its text clears the confirmation error, and setting it to a different non-empty text raises `"Passwords do not match"` (an empty password is falsy and raises nothing) |

## Left out

- Rendering: `renderField` and the returned markup (src/Forms.jsx:147-235) are presentation. This includes the display-only default value (line 148). `e.preventDefault()` is event plumbing.
- React `useState`: the two state cells are fields of the `DynamicForm` class, and each handler replaces them wholesale.
- The submission sink (`console.log`, line 142) is output. The model records each payload in the `submissions` field and nothing else.
- The regular expression engine: each pattern is an opaque predicate supplied through `Env`. The model does not say which strings the four regular expressions accept.
- Date handling: `new Date(value + 'T00:00:00')`, its NaN test and the local-time getters are an opaque `parseDate` (where `None` is an invalid date). `new Date()` is the `today` parameter.
- Schema.FieldConfigs: `today` is fixed for one schema instance. So the model does not capture a revalidation whose result changes because the clock passed midnight between two passes.
- Numbers: IEEE-754 semantics and `valueAsNumber` are not modelled. Numbers are integers with a separate NaN tag. Fractions, infinities, `-0` and the exponent notation of very large numbers in messages are left out.
- `null` and `undefined` are one value, `Absent`. The code never tells them apart.
- A custom validator that returns something other than a string or `null` is not modelled. Validators return `Option<string>`.
- Strings are sequences of Unicode scalar values. A JavaScript string holding a lone surrogate code unit cannot be represented, so `Utf16Length` and `Trim` do not cover it.
- Select `options` are kept as schema data only. As in the code, a value is never checked against them.
