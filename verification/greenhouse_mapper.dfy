/** The label-heuristic field mapper of the Greenhouse executor
    (`execution/greenhouse/steps/map_fields.py`): keyword matching on
    normalized labels, and a rule chain that splits the CV's full name. */
module GreenhouseMapper {
  import opened Wrappers
  import opened Models
  import opened Text
  import TextFacts

  /** `normalize`: lower-case, then strip. */
  function Normalize(t: string): string {
    Strip(Lower(t))
  }

  /** Normalizing an already normalized label changes nothing. */
  lemma NormalizeIdempotent(t: string)
    ensures Normalize(Normalize(t)) == Normalize(t)
  {
    var l := Lower(t);
    TextFacts.StripCommutesWithLower(Strip(l));
    TextFacts.StripCommutesWithLower(t);
    TextFacts.LowerIdempotent(Strip(t));
    TextFacts.StripIdempotent(l);
  }

  /** The attribute errors of reading `cv.full_name` and `schema.fields`
      on an unset slot. */
  const NoCvError := "AttributeError: 'NoneType' object has no attribute 'full_name'"
  const NoSchemaError := "AttributeError: 'NoneType' object has no attribute 'fields'"

  /** `KEYWORD_MAP`, in declaration order: each target with its keywords. */
  const KeywordMap: seq<(string, seq<string>)> := [
    ("first name", ["first name", "given name"]),
    ("last name", ["last name", "surname", "family name"]),
    ("email", ["email", "e-mail"]),
    ("phone", ["phone", "mobile"]),
    ("resume", ["resume", "cv"]),
    ("linkedin", ["linkedin"]),
    ("website", ["website", "portfolio"])
  ]

  predicate HasKeyword(text: string, keywords: seq<string>) {
    exists k :: 0 <= k < |keywords| && Contains(text, keywords[k])
  }

  /** Index of the first table entry with a keyword occurring in `label`. */
  function FirstMatch(text: string, table: seq<(string, seq<string>)>): (r: Option<nat>)
    ensures r.None? ==> forall j :: 0 <= j < |table| ==> !HasKeyword(text, table[j].1)
    ensures r.Some? ==>
      && r.value < |table|
      && HasKeyword(text, table[r.value].1)
      && forall j :: 0 <= j < r.value ==> !HasKeyword(text, table[j].1)
    decreases |table|
  {
    if |table| == 0 then None
    else if HasKeyword(text, table[0].1) then Some(0)
    else match FirstMatch(text, table[1..])
      case None => None
      case Some(i) => Some(i + 1)
  }

  function Get(m: map<string, string>, k: string): Option<string> {
    if k in m then Some(m[k]) else None
  }

  /** The candidate's value for the first entry of `table`, in order, one
      of whose keywords occurs in `text`; `None` when no keyword occurs. The
      search stops at that entry even when the candidate has no value for
      it. */
  function MatchIn(text: string, candidate: map<string, string>, table: seq<(string, seq<string>)>): (r: Option<string>)
    ensures (forall j :: 0 <= j < |table| ==> !HasKeyword(text, table[j].1)) ==> r.None?
    ensures forall j :: (0 <= j < |table| && HasKeyword(text, table[j].1)
                         && (forall k :: 0 <= k < j ==> !HasKeyword(text, table[k].1)))
                        ==> r == Get(candidate, table[j].0)
  {
    match FirstMatch(text, table)
    case None => None
    case Some(i) => Get(candidate, table[i].0)
  }

  /** `match_field`: the search of `KEYWORD_MAP` on the normalized label. */
  function MatchField(fieldLabel: string, candidate: map<string, string>): Option<string> {
    MatchIn(Normalize(fieldLabel), candidate, KeywordMap)
  }

  /** The full-name split: the text before the first space of the stripped
      name, and the remainder when there is a space. An empty name gives
      neither part. */
  function SplitFullName(fullName: string): (r: (Option<string>, Option<string>))
    ensures fullName == "" ==> r == (None, None)
    ensures fullName != "" ==> r.0.Some? && ' ' !in r.0.value
    ensures fullName != "" && r.1.None? ==> r.0.value == Strip(fullName)
    ensures fullName != "" && r.1.Some? ==> r.0.value + " " + r.1.value == Strip(fullName)
  {
    if fullName == "" then (None, None)
    else
      var parts := SplitOnceOnSpace(Strip(fullName));
      (Some(parts.0), parts.1)
  }

  lemma SplitJaneMaryDoe()
    ensures SplitFullName("Jane Mary Doe") == (Some("Jane"), Some("Mary Doe"))
  {
    var s := "Jane Mary Doe";
    assert Strip(s) == s by {
      assert s[0] == 'J' && s[|s| - 1] == 'e';
      TextFacts.StripUnpadded(s);
    }
    assert SplitOnceOnSpace(s) == ("Jane", Some("Mary Doe")) by {
      assert s == "Jane" + " " + "Mary Doe";
      TextFacts.SplitAtFirstSpace("Jane", "Mary Doe");
    }
  }

  /** Which source a field takes, by rule priority on the lower-cased label:
      resume, first name, last name, email, location, summary, skills. */
  datatype Rule = ResumeRule | FirstNameRule | LastNameRule | EmailRule
                | LocationRule | SummaryRule | SkillRule | NoRule

  function RuleFor(f: FormField): Rule {
    var lowered := Lower(f.labelText);
    if f.fieldId == "resume" || Contains(lowered, "resume") then ResumeRule
    else if f.fieldId == "first_name" || Contains(lowered, "first") then FirstNameRule
    else if f.fieldId == "last_name" || Contains(lowered, "last") then LastNameRule
    else if Contains(lowered, "email") then EmailRule
    else if Contains(lowered, "location") then LocationRule
    else if Contains(lowered, "summary") then SummaryRule
    else if Contains(lowered, "skill") then SkillRule
    else NoRule
  }

  /** The value the rule chain gives one field (`None` means unmapped). */
  function FieldValue(cv: CV, f: FormField): Option<string> {
    var names := SplitFullName(cv.fullName);
    match RuleFor(f)
    case ResumeRule => cv.resumePath
    case FirstNameRule => names.0
    case LastNameRule => names.1
    case EmailRule => cv.email
    case LocationRule => cv.location
    case SummaryRule => cv.summary
    case SkillRule => Some(Join(cv.skills, ", "))
    case NoRule => None
  }

  /** `pairs[i]` is the last pair with its key that carries a value. */
  predicate LastPresent(pairs: seq<(string, Option<string>)>, i: int)
    requires 0 <= i < |pairs|
  {
    forall j :: i < j < |pairs| && pairs[j].0 == pairs[i].0 ==> pairs[j].1.None?
  }

  /** `pairs[i]` has key `k` and carries a value. */
  predicate KeyedAt(pairs: seq<(string, Option<string>)>, k: string, i: int) {
    0 <= i < |pairs| && pairs[i].0 == k && pairs[i].1.Some?
  }

  /** Builds a dictionary from (key, optional value) pairs in order,
      skipping absent values; a later value overwrites an earlier one. */
  function Collect(pairs: seq<(string, Option<string>)>): (r: map<string, string>)
    ensures forall k :: k in r <==> exists i :: KeyedAt(pairs, k, i)
    ensures forall i :: 0 <= i < |pairs| && pairs[i].1.Some? && LastPresent(pairs, i) ==>
      pairs[i].0 in r && r[pairs[i].0] == pairs[i].1.value
    decreases |pairs|
  {
    if |pairs| == 0 then map[]
    else
      var init := pairs[..|pairs| - 1];
      var p := pairs[|pairs| - 1];
      var rest := Collect(init);
      var r := if p.1.Some? then rest[p.0 := p.1.value] else rest;
      assert forall k :: k in r <==> exists i :: KeyedAt(pairs, k, i) by {
        forall k ensures k in r <==> exists i :: KeyedAt(pairs, k, i) {
          if k in r {
            if p.1.Some? && k == p.0 {
              assert KeyedAt(pairs, k, |pairs| - 1);
            } else {
              var i :| KeyedAt(init, k, i);
              assert KeyedAt(pairs, k, i);
            }
          }
          if exists i :: KeyedAt(pairs, k, i) {
            var i :| KeyedAt(pairs, k, i);
            if i < |init| { assert KeyedAt(init, k, i); }
          }
        }
      }
      assert forall i :: 0 <= i < |pairs| && pairs[i].1.Some? && LastPresent(pairs, i) ==>
        pairs[i].0 in r && r[pairs[i].0] == pairs[i].1.value by {
        forall i | 0 <= i < |pairs| && pairs[i].1.Some? && LastPresent(pairs, i)
          ensures pairs[i].0 in r && r[pairs[i].0] == pairs[i].1.value
        {
          if i < |init| {
            assert LastPresent(init, i);
          }
        }
      }
      r
  }

  /** Each field's id paired with the value its rule gives. */
  function FieldPairs(fields: seq<FormField>, cv: CV): (r: seq<(string, Option<string>)>)
    ensures |r| == |fields|
    ensures forall i :: 0 <= i < |fields| ==> r[i] == (fields[i].fieldId, FieldValue(cv, fields[i]))
  {
    seq(|fields|, i requires 0 <= i < |fields| => (fields[i].fieldId, FieldValue(cv, fields[i])))
  }

  /** `fields[i]` is the last field with its id that maps to a value. */
  predicate LastMappedWithId(cv: CV, fields: seq<FormField>, i: int)
    requires 0 <= i < |fields|
  {
    forall j :: i < j < |fields| && fields[j].fieldId == fields[i].fieldId ==> FieldValue(cv, fields[j]).None?
  }

  /** `map_fields_node` of the Greenhouse executor: unmapped fields are
      omitted, so every key is a schema field id whose rule gave a value. */
  function MapFields(fields: seq<FormField>, cv: CV): (r: map<string, string>)
    ensures forall id :: id in r <==> exists i :: 0 <= i < |fields| && fields[i].fieldId == id && FieldValue(cv, fields[i]).Some?
    ensures forall i :: 0 <= i < |fields| && FieldValue(cv, fields[i]).Some? && LastMappedWithId(cv, fields, i) ==>
      fields[i].fieldId in r && r[fields[i].fieldId] == FieldValue(cv, fields[i]).value
  {
    var pairs := FieldPairs(fields, cv);
    var r := Collect(pairs);
    assert forall id :: id in r <==> exists i :: 0 <= i < |fields| && fields[i].fieldId == id && FieldValue(cv, fields[i]).Some? by {
      forall id ensures id in r <==> exists i :: 0 <= i < |fields| && fields[i].fieldId == id && FieldValue(cv, fields[i]).Some? {
        if id in r {
          var i :| KeyedAt(pairs, id, i);
          assert fields[i].fieldId == id && FieldValue(cv, fields[i]).Some?;
        }
        if exists i :: 0 <= i < |fields| && fields[i].fieldId == id && FieldValue(cv, fields[i]).Some? {
          var i :| 0 <= i < |fields| && fields[i].fieldId == id && FieldValue(cv, fields[i]).Some?;
          assert KeyedAt(pairs, id, i);
        }
      }
    }
    forall i | 0 <= i < |fields| && LastMappedWithId(cv, fields, i)
      ensures LastPresent(pairs, i)
    {
      forall j | i < j < |pairs| && pairs[j].0 == pairs[i].0
        ensures pairs[j].1.None?
      {
        assert fields[j].fieldId == fields[i].fieldId;
      }
    }
    r
  }

  /** The node itself: it reads `state.cv` before `state.form_schema`, and
      either being unset raises an attribute error; otherwise the state's
      mapping becomes `MapFields` of the schema's fields. */
  function MapFieldsNode(schema: Option<FormSchema>, cv: Option<CV>): (r: Result<map<string, string>, string>)
    ensures r.Failure? <==> schema.None? || cv.None?
    ensures cv.None? ==> r == Failure(NoCvError)
    ensures r.Success? ==> r.value == MapFields(schema.value.fields, cv.value)
    ensures r.Success? ==> r.value.Keys <= set f | f in schema.value.fields :: f.fieldId
  {
    match cv
    case None => Failure(NoCvError)
    case Some(c) =>
      match schema
      case None => Failure(NoSchemaError)
      case Some(sc) =>
        var m := MapFields(sc.fields, c);
        assert forall id :: id in m ==> id in set f | f in sc.fields :: f.fieldId by {
          forall id | id in m ensures id in set f | f in sc.fields :: f.fieldId {
            var i :| 0 <= i < |sc.fields| && sc.fields[i].fieldId == id && FieldValue(c, sc.fields[i]).Some?;
            assert sc.fields[i] in sc.fields;
          }
        }
        Success(m)
  }

  /** With unique ids, every field whose rule gives a value is mapped to it. */
  lemma UniqueIdsMapEveryValue(fields: seq<FormField>, cv: CV)
    requires UniqueIds(fields)
    ensures forall i :: 0 <= i < |fields| && FieldValue(cv, fields[i]).Some? ==>
      MapFields(fields, cv)[fields[i].fieldId] == FieldValue(cv, fields[i]).value
  {
    assert forall i :: 0 <= i < |fields| ==> LastMappedWithId(cv, fields, i);
  }

  /** A resume field takes the CV's resume path whatever else its label says. */
  lemma ResumeRuleWins(cv: CV, f: FormField)
    requires f.fieldId == "resume" || Contains(Lower(f.labelText), "resume")
    ensures FieldValue(cv, f) == cv.resumePath
  {
  }

  /** A skills field holds the CV's skills joined with ", ". */
  lemma SkillsJoined(cv: CV, f: FormField)
    requires RuleFor(f) == SkillRule
    ensures FieldValue(cv, f) == Some(Join(cv.skills, ", "))
  {
  }

  const FirstNameField := FormField("first_name", "First Name", TextField, true, None)
  const LastNameField := FormField("last_name", "Last Name", TextField, true, None)

  /** A field with id `first_name` whose label does not mention a resume
      takes the first-name rule. */
  lemma FirstNameIdRule(f: FormField)
    requires f.fieldId == "first_name" && !Contains(Lower(f.labelText), "resume")
    ensures RuleFor(f) == FirstNameRule
  {
    assert f.fieldId != "resume" by {
      assert f.fieldId[0] != "resume"[0];
    }
  }

  /** A field with id `last_name` whose label mentions neither a resume nor
      "first" takes the last-name rule. */
  lemma LastNameIdRule(f: FormField)
    requires f.fieldId == "last_name"
    requires !Contains(Lower(f.labelText), "resume") && !Contains(Lower(f.labelText), "first")
    ensures RuleFor(f) == LastNameRule
  {
    assert f.fieldId != "resume" by {
      assert f.fieldId[0] != "resume"[0];
    }
    assert f.fieldId != "first_name" by {
      assert f.fieldId[0] != "first_name"[0];
    }
  }

  lemma FirstNameFieldRule()
    ensures RuleFor(FirstNameField) == FirstNameRule
  {
    var lowered := Lower(FirstNameField.labelText);
    assert 'u' !in lowered by {
      assert lowered == "first name";
    }
    TextFacts.MissingCharNotContained(lowered, "resume", 'u');
    FirstNameIdRule(FirstNameField);
  }

  lemma LastNameFieldRule()
    ensures RuleFor(LastNameField) == LastNameRule
  {
    var lowered := Lower(LastNameField.labelText);
    assert 'u' !in lowered && 'f' !in lowered by {
      assert lowered == "last name";
    }
    TextFacts.MissingCharNotContained(lowered, "resume", 'u');
    TextFacts.MissingCharNotContained(lowered, "first", 'f');
    LastNameIdRule(LastNameField);
  }

  lemma FirstNameFieldValue(cv: CV)
    requires cv.fullName == "Jane Mary Doe"
    ensures FieldValue(cv, FirstNameField) == Some("Jane")
  {
    SplitJaneMaryDoe();
    FirstNameFieldRule();
  }

  lemma LastNameFieldValue(cv: CV)
    requires cv.fullName == "Jane Mary Doe"
    ensures FieldValue(cv, LastNameField) == Some("Mary Doe")
  {
    SplitJaneMaryDoe();
    LastNameFieldRule();
  }

  /** Two fields with distinct ids that both get values map to exactly those. */
  lemma TwoFieldsMapped(cv: CV, f1: FormField, f2: FormField)
    requires f1.fieldId != f2.fieldId
    requires FieldValue(cv, f1).Some? && FieldValue(cv, f2).Some?
    ensures MapFields([f1, f2], cv) == map[f1.fieldId := FieldValue(cv, f1).value, f2.fieldId := FieldValue(cv, f2).value]
  {
    var fields := [f1, f2];
    var r := MapFields(fields, cv);
    assert fields[0] == f1 && fields[1] == f2;
    assert LastMappedWithId(cv, fields, 0) && LastMappedWithId(cv, fields, 1);
    assert r.Keys == {f1.fieldId, f2.fieldId} by {
      forall id | id in r ensures id == f1.fieldId || id == f2.fieldId {
        var i :| 0 <= i < |fields| && fields[i].fieldId == id && FieldValue(cv, fields[i]).Some?;
      }
    }
  }

  /** Separate first- and last-name fields receive the split full name. */
  lemma NameSplitMapping(cv: CV)
    requires cv.fullName == "Jane Mary Doe"
    ensures MapFields([FirstNameField, LastNameField], cv) == map["first_name" := "Jane", "last_name" := "Mary Doe"]
  {
    FirstNameFieldValue(cv);
    LastNameFieldValue(cv);
    TwoFieldsMapped(cv, FirstNameField, LastNameField);
  }
}
