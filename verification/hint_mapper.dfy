/** Schema-driven mapping through mapping hints (`namespace.attribute`),
    as used by the graph's MAP_FIELDS node. Attribute lookup by name is a
    fixed table per record type; any other name resolves to `None`. */
module HintMapper {
  import opened Wrappers
  import opened Models
  import opened Text
  import TextFacts

  const CvPrefix := "cv."
  const OptimizedCvPrefix := "optimized_cv."

  function OptStr(s: Option<string>): Option<Value> {
    match s
    case None => None
    case Some(v) => Some(Str(v))
  }

  function StrList(xs: seq<string>): seq<Value> {
    seq(|xs|, i requires 0 <= i < |xs| => Str(xs[i]))
  }

  function ObjectList(kind: string, n: nat): seq<Value> {
    seq(n, i => Object(kind))
  }

  /** `getattr(cv, name, None)` over the CV's data attributes. */
  function CvAttribute(cv: CV, name: string): Option<Value> {
    match name
    case "full_name" => Some(Str(cv.fullName))
    case "email" => OptStr(cv.email)
    case "location" => OptStr(cv.location)
    case "summary" => OptStr(cv.summary)
    case "skills" => Some(List(StrList(cv.skills)))
    case "experience" => Some(List(ObjectList("Experience", |cv.experience|)))
    case "education" => Some(List(ObjectList("Education", |cv.education|)))
    case "raw_text" => OptStr(cv.rawText)
    case _ => None
  }

  /** `getattr(optimized_cv, name, None)` over the tailored CV's data attributes. */
  function OptimizedCvAttribute(o: OptimizedCV, name: string): Option<Value> {
    match name
    case "original_cv" => Some(Object("CV"))
    case "job" => Some(Object("Job"))
    case "tailored_summary" => OptStr(o.tailoredSummary)
    case "tailored_skills" => Some(List(StrList(o.tailoredSkills)))
    case "tailored_experience" => OptStr(o.tailoredExperience)
    case "full_text" => OptStr(o.fullText)
    case _ => None
  }

  /** No hint starts with both namespace prefixes. */
  lemma PrefixesExclusive(hint: string)
    ensures !(StartsWith(hint, CvPrefix) && StartsWith(hint, OptimizedCvPrefix))
  {
    if |hint| > 0 {
      assert StartsWith(hint, CvPrefix) ==> hint[0] == 'c';
      assert StartsWith(hint, OptimizedCvPrefix) ==> hint[0] == 'o';
    }
  }

  /** `_resolve_mapping_hint`: the attribute name is the hint with every
      occurrence of the namespace prefix removed (`str.replace`). Absent
      sources and unknown namespaces resolve to `None`; nothing raises. */
  function ResolveMappingHint(cv: Option<CV>, optimized: Option<OptimizedCV>, hint: string): (r: Option<Value>)
    ensures !StartsWith(hint, CvPrefix) && !StartsWith(hint, OptimizedCvPrefix) ==> r.None?
    ensures StartsWith(hint, CvPrefix) && cv.None? ==> r.None?
    ensures StartsWith(hint, OptimizedCvPrefix) && optimized.None? ==> r.None?
  {
    PrefixesExclusive(hint);
    if StartsWith(hint, CvPrefix) then
      match cv
      case None => None
      case Some(c) => CvAttribute(c, ReplaceAll(hint, CvPrefix, ""))
    else if StartsWith(hint, OptimizedCvPrefix) then
      match optimized
      case None => None
      case Some(o) => OptimizedCvAttribute(o, ReplaceAll(hint, OptimizedCvPrefix, ""))
    else None
  }

  /** A `cv.` hint names the CV attribute that follows the prefix. */
  lemma ResolveCvHint(cv: CV, optimized: Option<OptimizedCV>, attr: string)
    requires !Contains(attr, CvPrefix)
    ensures ResolveMappingHint(Some(cv), optimized, CvPrefix + attr) == CvAttribute(cv, attr)
  {
    var hint := CvPrefix + attr;
    assert StartsWith(hint, CvPrefix);
    TextFacts.ReplaceLeading(CvPrefix, attr, "");
    TextFacts.ReplaceAbsent(attr, CvPrefix, "");
    assert ReplaceAll(hint, CvPrefix, "") == attr;
  }

  /** An `optimized_cv.` hint names the tailored-CV attribute that follows
      the prefix. */
  lemma ResolveOptimizedCvHint(cv: Option<CV>, optimized: OptimizedCV, attr: string)
    requires !Contains(attr, OptimizedCvPrefix)
    ensures ResolveMappingHint(cv, Some(optimized), OptimizedCvPrefix + attr)
         == OptimizedCvAttribute(optimized, attr)
  {
    var hint := OptimizedCvPrefix + attr;
    assert StartsWith(hint, OptimizedCvPrefix);
    PrefixesExclusive(hint);
    TextFacts.ReplaceLeading(OptimizedCvPrefix, attr, "");
    TextFacts.ReplaceAbsent(attr, OptimizedCvPrefix, "");
    assert ReplaceAll(hint, OptimizedCvPrefix, "") == attr;
  }

  /** The value MAP_FIELDS assigns to one field: its resolved hint, or `None`
      when the field has no (or an empty) hint. */
  function HintValue(cv: Option<CV>, optimized: Option<OptimizedCV>, f: FormField): Option<Value> {
    if f.mappingHint.Some? && f.mappingHint.value != "" then
      ResolveMappingHint(cv, optimized, f.mappingHint.value)
    else None
  }

  /** The field `fields[i]` is the last one carrying its id. */
  predicate LastWithId(fields: seq<FormField>, i: int)
    requires 0 <= i < |fields|
  {
    forall j :: i < j < |fields| ==> fields[j].fieldId != fields[i].fieldId
  }

  /** `map_fields_node` of the graph: one entry per schema field id, later
      fields overwriting earlier ones with the same id. */
  function HintMapping(cv: Option<CV>, optimized: Option<OptimizedCV>, fields: seq<FormField>): FieldMapping
    decreases |fields|
  {
    if |fields| == 0 then map[]
    else
      var f := fields[|fields| - 1];
      HintMapping(cv, optimized, fields[..|fields| - 1])[f.fieldId := HintValue(cv, optimized, f)]
  }

  /** The mapping's keys are exactly the schema's field ids. */
  lemma {:induction false} HintMappingKeys(cv: Option<CV>, optimized: Option<OptimizedCV>, fields: seq<FormField>)
    ensures HintMapping(cv, optimized, fields).Keys == set f | f in fields :: f.fieldId
    decreases |fields|
  {
    if |fields| > 0 {
      var init := fields[..|fields| - 1];
      var f := fields[|fields| - 1];
      HintMappingKeys(cv, optimized, init);
      assert forall g :: g in fields <==> g in init || g == f;
    }
  }

  /** A field that is the last with its id has its resolved hint under that
      id: later fields overwrite earlier ones. */
  lemma {:induction false} HintMappingAt(cv: Option<CV>, optimized: Option<OptimizedCV>, fields: seq<FormField>, i: int)
    requires 0 <= i < |fields| && LastWithId(fields, i)
    ensures fields[i].fieldId in HintMapping(cv, optimized, fields)
    ensures HintMapping(cv, optimized, fields)[fields[i].fieldId] == HintValue(cv, optimized, fields[i])
    decreases |fields|
  {
    if i < |fields| - 1 {
      var init := fields[..|fields| - 1];
      assert fields[|fields| - 1].fieldId != fields[i].fieldId;
      assert LastWithId(init, i) by {
        forall j | i < j < |init| ensures init[j].fieldId != init[i].fieldId {
          assert init[j] == fields[j];
        }
      }
      HintMappingAt(cv, optimized, init, i);
    }
  }

  /** With unique ids every field carries its own resolved hint. */
  lemma UniqueIdsMapEveryField(cv: Option<CV>, optimized: Option<OptimizedCV>, fields: seq<FormField>)
    requires UniqueIds(fields)
    ensures forall i :: 0 <= i < |fields| ==>
      fields[i].fieldId in HintMapping(cv, optimized, fields)
      && HintMapping(cv, optimized, fields)[fields[i].fieldId] == HintValue(cv, optimized, fields[i])
  {
    forall i | 0 <= i < |fields|
      ensures fields[i].fieldId in HintMapping(cv, optimized, fields)
      ensures HintMapping(cv, optimized, fields)[fields[i].fieldId] == HintValue(cv, optimized, fields[i])
    {
      HintMappingAt(cv, optimized, fields, i);
    }
  }
}
