/** The whole-schema validation pass shared by the change and submit handlers: a
    fresh error map with one entry per schema key, filled in schema order. */
module Passes {
  import opened FormValues
  import opened Fields
  import opened Validation

  /** `validateField(c, formData[c.key], formData)`. */
  function FieldError(c: FieldConfig, data: FormData): string {
    ValidateField(c, Get(data, c.key), data)
  }

  function KeysOf(schema: seq<FieldConfig>): set<string> {
    set i | 0 <= i < |schema| :: schema[i].key
  }

  /** The schema invariant: no two entries share a key. */
  predicate UniqueKeys(schema: seq<FieldConfig>) {
    forall i, j :: 0 <= i < j < |schema| ==> schema[i].key != schema[j].key
  }

  /** The error map the pass leaves after visiting `schema` in order: each visit
      writes `newErrors[c.key]`, so a later entry overwrites an earlier one. */
  function ErrorMap(schema: seq<FieldConfig>, data: FormData): (m: map<string, string>)
    ensures m.Keys == KeysOf(schema)
    decreases |schema|
  {
    if schema == [] then map[]
    else
      var front, last := schema[..|schema| - 1], schema[|schema| - 1];
      assert KeysOf(schema) == KeysOf(front) + {last.key} by {
        assert forall i :: 0 <= i < |front| ==> front[i] == schema[i];
      }
      ErrorMap(front, data)[last.key := FieldError(last, data)]
  }

  /** Whether some field of the schema has an error: the submit pass's `hasError`. */
  predicate AnyError(schema: seq<FieldConfig>, data: FormData) {
    exists i :: 0 <= i < |schema| && FieldError(schema[i], data) != ""
  }

  /** Visiting one more field sets `hasError` when that field has an error. */
  lemma AnyErrorStep(schema: seq<FieldConfig>, data: FormData, i: nat)
    requires i < |schema|
    ensures AnyError(schema[..i + 1], data) == (AnyError(schema[..i], data) || FieldError(schema[i], data) != "")
  {
    var front := schema[..i + 1];
    assert front[..i] == schema[..i] && front[i] == schema[i];
    if AnyError(front, data) && FieldError(schema[i], data) == "" {
      var j :| 0 <= j < |front| && FieldError(front[j], data) != "";
      assert j < i && schema[..i][j] == front[j];
    }
    if AnyError(schema[..i], data) {
      var j :| 0 <= j < i && FieldError(schema[..i][j], data) != "";
      assert front[j] == schema[..i][j];
    }
  }

  /** With unique keys, every field's entry is its own verdict on the data. */
  lemma {:induction false} ErrorMapEntry(schema: seq<FieldConfig>, data: FormData, i: nat)
    requires UniqueKeys(schema) && i < |schema|
    ensures schema[i].key in ErrorMap(schema, data)
    ensures ErrorMap(schema, data)[schema[i].key] == FieldError(schema[i], data)
    decreases |schema|
  {
    if i < |schema| - 1 {
      var front := schema[..|schema| - 1];
      assert front[i] == schema[i];
      ErrorMapEntry(front, data, i);
    }
  }

  /** With unique keys, `hasError` is true exactly when the new error map holds a
      non-empty message. */
  lemma AnyErrorIffMessage(schema: seq<FieldConfig>, data: FormData)
    requires UniqueKeys(schema)
    ensures AnyError(schema, data) <==>
      exists k :: k in ErrorMap(schema, data) && ErrorMap(schema, data)[k] != ""
  {
    var m := ErrorMap(schema, data);
    if AnyError(schema, data) {
      var i :| 0 <= i < |schema| && FieldError(schema[i], data) != "";
      ErrorMapEntry(schema, data, i);
    }
    if exists k :: k in m && m[k] != "" {
      var k :| k in m && m[k] != "";
      var i :| 0 <= i < |schema| && schema[i].key == k;
      ErrorMapEntry(schema, data, i);
    }
  }

  /** A required field left blank always blocks submission. */
  lemma BlankRequiredFieldIsError(schema: seq<FieldConfig>, data: FormData, i: nat)
    requires i < |schema| && schema[i].rules.required && Blank(Get(data, schema[i].key))
    ensures AnyError(schema, data)
  {
    FirstFailureWins(schema[i], Get(data, schema[i].key), data);
    assert FieldError(schema[i], data) != "";
  }

  /** A field without a custom validator depends only on its own value, so
      changing another key leaves its verdict alone; only custom validators make
      the full revalidation necessary. */
  lemma OwnValueOnly(c: FieldConfig, data: FormData, k: string, v: Value)
    requires c.customValidator.None? && c.key != k
    ensures FieldError(c, data[k := v]) == FieldError(c, data)
  {
    var u := Get(data, c.key);
    GetAfterUpdate(data, k, v, c.key);
    assert CustomVerdict(c, u, data[k := v]) == Accepted == CustomVerdict(c, u, data);
    SameStagesSameVerdict(c, c, u, u, data[k := v], data);
  }
}
