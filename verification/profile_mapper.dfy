/** The profile-based mapper (`map_profile_to_schema`): fills form fields
    from the user's structured profile, by field id first and by label
    keyword second, and lists the required fields it could not fill. */
module ProfileMapper {
  import opened Wrappers
  import opened Models
  import opened Text

  /** The profile value for one field: the six recognised ids take the
      same-named profile attribute (`resume` takes the resume path); any
      other field falls back to its lower-cased label, "linkedin" before
      "website". */
  function ProfileValue(f: FormField, p: UserProfile): (r: Option<string>)
    ensures f.fieldId in IdRules ==> r.Some?
    ensures f.fieldId == "resume" ==> r == Some(p.resumePath)
    ensures f.fieldId !in IdRules && Contains(Lower(f.labelText), "linkedin") ==> r == p.linkedin
    ensures (f.fieldId !in IdRules && !Contains(Lower(f.labelText), "linkedin")
             && Contains(Lower(f.labelText), "website")) ==> r == p.website
    ensures (f.fieldId !in IdRules && !Contains(Lower(f.labelText), "linkedin")
             && !Contains(Lower(f.labelText), "website")) ==> r.None?
  {
    if f.fieldId == "first_name" then Some(p.firstName)
    else if f.fieldId == "last_name" then Some(p.lastName)
    else if f.fieldId == "email" then Some(p.email)
    else if f.fieldId == "phone" then Some(p.phone)
    else if f.fieldId == "country" then Some(p.country)
    else if f.fieldId == "resume" then Some(p.resumePath)
    else if Contains(Lower(f.labelText), "linkedin") then p.linkedin
    else if Contains(Lower(f.labelText), "website") then p.website
    else None
  }

  /** The field ids matched before any label rule. */
  const IdRules: set<string> := {"first_name", "last_name", "email", "phone", "country", "resume"}

  /** A field is mapped when its value is truthy: present and non-empty. */
  predicate IsMapped(f: FormField, p: UserProfile) {
    Truthy(ProfileValue(f, p))
  }

  /** A required field the profile cannot fill. */
  predicate IsMissing(f: FormField, p: UserProfile) {
    !IsMapped(f, p) && f.required
  }

  /** The two output lists of the loop over `fields`, in schema order. */
  function MapAll(fields: seq<FormField>, p: UserProfile): (r: (seq<MappedField>, seq<string>))
    ensures |r.0| + |r.1| <= |fields|
    ensures forall m :: m in r.0 <==>
      exists i :: 0 <= i < |fields| && IsMapped(fields[i], p)
                  && m == MappedField(fields[i].fieldId, ProfileValue(fields[i], p).value)
    ensures forall id :: id in r.1 <==>
      exists i :: 0 <= i < |fields| && IsMissing(fields[i], p) && fields[i].fieldId == id
    ensures forall k :: 0 <= k < |r.0| ==> r.0[k].value != ""
    decreases |fields|
  {
    if |fields| == 0 then ([], [])
    else
      var init := fields[..|fields| - 1];
      var f := fields[|fields| - 1];
      var rest := MapAll(init, p);
      assert forall i :: 0 <= i < |init| ==> init[i] == fields[i];
      if IsMapped(f, p) then
        (rest.0 + [MappedField(f.fieldId, ProfileValue(f, p).value)], rest.1)
      else if f.required then (rest.0, rest.1 + [f.fieldId])
      else rest
  }

  /** `map_profile_to_schema`: the result carries the input schema. */
  function MapProfileToSchema(schema: FormSchema, p: UserProfile): (r: FieldMappingResult)
    ensures r.schema == schema
    ensures |r.mappedFields| + |r.missingRequiredFields| <= |schema.fields|
    ensures forall m :: m in r.mappedFields <==>
      exists i :: 0 <= i < |schema.fields| && IsMapped(schema.fields[i], p)
                  && m == MappedField(schema.fields[i].fieldId, ProfileValue(schema.fields[i], p).value)
    ensures forall id :: id in r.missingRequiredFields <==>
      exists i :: 0 <= i < |schema.fields| && IsMissing(schema.fields[i], p) && schema.fields[i].fieldId == id
  {
    var lists := MapAll(schema.fields, p);
    FieldMappingResult(schema, lists.0, lists.1)
  }

  /** Both lists follow schema order: mapping a concatenation of field lists
      concatenates the outputs. */
  lemma {:induction false} MapAllAppend(a: seq<FormField>, b: seq<FormField>, p: UserProfile)
    ensures MapAll(a + b, p) == (MapAll(a, p).0 + MapAll(b, p).0, MapAll(a, p).1 + MapAll(b, p).1)
    decreases |b|
  {
    if |b| == 0 {
      assert a + b == a;
      assert MapAll(b, p) == ([], []);
      assert MapAll(a, p).0 + [] == MapAll(a, p).0 && MapAll(a, p).1 + [] == MapAll(a, p).1;
    } else {
      var b' := b[..|b| - 1];
      var f := b[|b| - 1];
      MapAllAppend(a, b', p);
      assert (a + b)[..|a + b| - 1] == a + b';
      assert (a + b)[|a + b| - 1] == f;
      var ra, rb' := MapAll(a, p), MapAll(b', p);
      if IsMapped(f, p) {
        assert MapAll(b, p) == (rb'.0 + [MappedField(f.fieldId, ProfileValue(f, p).value)], rb'.1);
        assert ra.0 + rb'.0 + [MappedField(f.fieldId, ProfileValue(f, p).value)]
            == ra.0 + (rb'.0 + [MappedField(f.fieldId, ProfileValue(f, p).value)]);
      } else if f.required {
        assert MapAll(b, p) == (rb'.0, rb'.1 + [f.fieldId]);
        assert ra.1 + rb'.1 + [f.fieldId] == ra.1 + (rb'.1 + [f.fieldId]);
      } else {
        assert MapAll(b, p) == rb';
      }
    }
  }

  /** With unique field ids no field is both mapped and missing. */
  lemma NoFieldInBothLists(schema: FormSchema, p: UserProfile)
    requires UniqueIds(schema.fields)
    ensures forall m :: m in MapProfileToSchema(schema, p).mappedFields ==>
      m.fieldId !in MapProfileToSchema(schema, p).missingRequiredFields
  {
    var r := MapProfileToSchema(schema, p);
    forall m | m in r.mappedFields ensures m.fieldId !in r.missingRequiredFields {
      var i :| 0 <= i < |schema.fields| && IsMapped(schema.fields[i], p)
               && m == MappedField(schema.fields[i].fieldId, ProfileValue(schema.fields[i], p).value);
      forall j | 0 <= j < |schema.fields| && schema.fields[j].fieldId == m.fieldId
        ensures !IsMissing(schema.fields[j], p)
      {
        assert j == i;
      }
    }
  }
}
