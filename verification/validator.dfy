/** The required-field validator. The source states it twice: as the
    missing-field collection of `validate_form_node` and as the early-exit
    check `_is_form_valid` that drives the graph's routing. */
module Validator {
  import opened Wrappers
  import opened Models

  /** A mapped value that does not count as filled in: absent, `None`, the
      empty string or the empty list. */
  predicate IsBlank(v: Option<Value>) {
    v.None? || v == Some(Str("")) || v == Some(List([]))
  }

  /** The required field `f` has no usable value in `m`. */
  predicate Unfilled(f: FormField, m: FieldMapping) {
    f.required && IsBlank(Lookup(m, f.fieldId))
  }

  /** Ids of the required fields whose value is blank, in schema order. */
  function MissingFields(fields: seq<FormField>, m: FieldMapping): (r: seq<string>)
    ensures |r| <= |fields|
    ensures forall id :: id in r <==> exists f :: f in fields && f.fieldId == id && Unfilled(f, m)
    decreases |fields|
  {
    if |fields| == 0 then []
    else
      var rest := MissingFields(fields[..|fields| - 1], m);
      var f := fields[|fields| - 1];
      assert forall g :: g in fields <==> g in fields[..|fields| - 1] || g == f;
      if Unfilled(f, m) then rest + [f.fieldId] else rest
  }

  /** The loop of `_is_form_valid`: stops at the first required field with a
      blank value. */
  function AllRequiredFilled(fields: seq<FormField>, m: FieldMapping): (r: bool)
    ensures r <==> forall i :: 0 <= i < |fields| ==> !Unfilled(fields[i], m)
    decreases |fields|
  {
    if |fields| == 0 then true
    else if fields[0].required && IsBlank(Lookup(m, fields[0].fieldId)) then false
    else AllRequiredFilled(fields[1..], m)
  }

  /** `_is_form_valid`: a missing schema or mapping is never valid. */
  function IsFormValid(schema: Option<FormSchema>, mapping: Option<FieldMapping>): (r: bool)
    ensures schema.None? || mapping.None? ==> !r
  {
    if schema.None? || mapping.None? then false
    else AllRequiredFilled(schema.value.fields, mapping.value)
  }

  /** Both statements of the validator agree: the form is valid exactly when
      no required field is missing. */
  lemma ValidIffNothingMissing(schema: FormSchema, m: FieldMapping)
    ensures IsFormValid(Some(schema), Some(m)) <==> MissingFields(schema.fields, m) == []
  {
    var missing := MissingFields(schema.fields, m);
    if missing != [] {
      assert missing[0] in missing;
    } else {
      forall i | 0 <= i < |schema.fields|
        ensures !Unfilled(schema.fields[i], m)
      {
        assert schema.fields[i] in schema.fields;
        assert schema.fields[i].fieldId !in missing;
      }
    }
  }
}
