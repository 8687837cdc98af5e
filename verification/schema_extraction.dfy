/** Field classification of the Greenhouse schema extractor
    (`execution/greenhouse/steps/extract_schema.py`). A form control is
    abstracted to the record of attributes the extractor reads; its label
    and the ancestor `aria-required` flag are computed in the browser and
    are inputs here. */
module SchemaExtraction {
  import opened Wrappers
  import opened Models
  import opened Text
  import TextFacts

  /** One `input`, `textarea` or `select` element of the application form. */
  datatype Element = Element(
    id: Option<string>,
    typeAttr: Option<string>,
    ariaLabel: Option<string>,
    ariaRequired: Option<string>,
    requiredAttr: Option<string>,
    tagName: string,
    ancestorAriaRequired: bool,
    labelText: string)

  /** A loaded page: its URL and the controls of `form#application-form`,
      or `None` when the page has no such form. */
  datatype Page = Page(url: string, form: Option<seq<Element>>)

  const FormNotFound := "Greenhouse application form not found"
  const ItiPrefix := "iti-"

  /** The element is a real field: it has a non-empty id that is not an
      `iti-` helper, and it is not a hidden input. */
  predicate Keep(e: Element) {
    && e.id.Some? && e.id.value != ""
    && !StartsWith(e.id.value, ItiPrefix)
    && e.typeAttr.GetOr("") != "hidden"
  }

  /** The upload condition: type `file`, or "resume" or "cv" in the
      lower-cased id. */
  predicate IsUpload(e: Element) {
    var t := Lower(e.typeAttr.GetOr(""));
    var elId := Lower(e.id.GetOr(""));
    t == "file" || Contains(elId, "resume") || Contains(elId, "cv")
  }

  predicate MentionsEmail(e: Element) {
    Contains(Lower(e.id.GetOr("")), "email") || Contains(Lower(e.ariaLabel.GetOr("")), "email")
  }

  predicate MentionsPhone(e: Element) {
    Contains(Lower(e.id.GetOr("")), "phone") || Contains(Lower(e.ariaLabel.GetOr("")), "phone")
  }

  /** `_detect_field_type` as intended, first matching rule wins: upload,
      email, phone, text area, plain text; uploads are the enum's
      `FILE_UPLOAD`, the type the stub schema also gives its resume field. */
  function DetectFieldType(e: Element): (r: FormFieldType)
    ensures r == FileUpload <==> IsUpload(e)
    ensures r == Email <==> !IsUpload(e) && MentionsEmail(e)
    ensures r == Phone <==> !IsUpload(e) && !MentionsEmail(e) && MentionsPhone(e)
    ensures r == TextArea <==> !IsUpload(e) && !MentionsEmail(e) && !MentionsPhone(e) && e.tagName == "TEXTAREA"
    ensures r in {FileUpload, Email, Phone, TextArea, TextField}
  {
    if IsUpload(e) then FileUpload
    else if MentionsEmail(e) then Email
    else if MentionsPhone(e) then Phone
    else if e.tagName == "TEXTAREA" then TextArea
    else TextField
  }

  /** `_detect_field_type` as written: the upload rule names `FILE`, a
      member `FormFieldType` does not declare, so classifying an upload
      raises instead of returning. */
  function DetectFieldTypeAsWritten(e: Element): (r: Result<FormFieldType, string>)
    ensures r.Failure? <==> IsUpload(e)
    ensures r.Success? ==> r.value == DetectFieldType(e) && r.value != FileUpload
  {
    if IsUpload(e) then Failure("AttributeError: FILE")
    else Success(DetectFieldType(e))
  }

  /** `_is_required` as written: an `aria-required="true"`, a `required`
      attribute whose value is non-empty, an ancestor with
      `aria-required="true"`, or an asterisk in the label. */
  predicate IsRequiredAsWritten(e: Element, fieldLabel: string) {
    || e.ariaRequired == Some("true")
    || (e.requiredAttr.Some? && e.requiredAttr.value != "")
    || e.ancestorAriaRequired
    || (fieldLabel != "" && '*' in fieldLabel)
  }

  /** `_is_required` as intended: `required` is a boolean attribute, so its
      presence marks the field required whatever its value. */
  predicate IsRequired(e: Element, fieldLabel: string) {
    || e.ariaRequired == Some("true")
    || e.requiredAttr.Some?
    || e.ancestorAriaRequired
    || (fieldLabel != "" && '*' in fieldLabel)
  }

  /** A bare `required` attribute reads as the empty string, which the
      check as written takes for "not required". */
  lemma BareRequiredIgnoredAsWritten(e: Element, fieldLabel: string)
    requires e.requiredAttr == Some("")
    requires e.ariaRequired != Some("true") && !e.ancestorAriaRequired && '*' !in fieldLabel
    ensures !IsRequiredAsWritten(e, fieldLabel)
    ensures IsRequired(e, fieldLabel)
  {
  }

  /** The intended check differs from the written one only on the bare
      attribute: it accepts everything the written check accepts, and
      additionally an empty-valued `required`. */
  lemma RequiredIntendedExtendsWritten(e: Element, fieldLabel: string)
    ensures IsRequired(e, fieldLabel) <==> IsRequiredAsWritten(e, fieldLabel) || e.requiredAttr == Some("")
  {
  }

  /** The field an element kept by the filter becomes, as intended;
      extracted fields carry no mapping hint. */
  function FieldOf(e: Element): FormField
    requires e.id.Some?
  {
    FormField(e.id.value, e.labelText, DetectFieldType(e), IsRequired(e, e.labelText), None)
  }

  /** The field a kept non-upload element becomes as written: the same
      field, except that requiredness is the written check's. */
  function FieldOfAsWritten(e: Element): FormField
    requires e.id.Some?
  {
    FieldOf(e).(required := IsRequiredAsWritten(e, e.labelText))
  }

  /** The loop over the form's controls: the kept elements' fields, in
      document order. */
  function ExtractFields(elems: seq<Element>): (r: seq<FormField>)
    ensures |r| <= |elems|
    decreases |elems|
  {
    if |elems| == 0 then []
    else
      var init := elems[..|elems| - 1];
      var e := elems[|elems| - 1];
      var rest := ExtractFields(init);
      if Keep(e) then rest + [FieldOf(e)] else rest
  }

  /** `f` is the field of some kept control of `elems`. */
  predicate FromKept(elems: seq<Element>, f: FormField) {
    exists j :: 0 <= j < |elems| && Keep(elems[j]) && f == FieldOf(elems[j])
  }

  /** Every extracted field comes from a kept control, so its id is
      non-empty and not an intl-tel-input helper's. */
  lemma {:induction false} ExtractedFieldsKept(elems: seq<Element>)
    ensures forall k :: 0 <= k < |ExtractFields(elems)| ==> FromKept(elems, ExtractFields(elems)[k])
    ensures forall k :: 0 <= k < |ExtractFields(elems)| ==>
      ExtractFields(elems)[k].fieldId != "" && !StartsWith(ExtractFields(elems)[k].fieldId, ItiPrefix)
    decreases |elems|
  {
    if |elems| > 0 {
      var init := elems[..|elems| - 1];
      var e := elems[|elems| - 1];
      ExtractedFieldsKept(init);
      var rest := ExtractFields(init);
      var r := ExtractFields(elems);
      assert r == if Keep(e) then rest + [FieldOf(e)] else rest;
      forall k | 0 <= k < |r|
        ensures FromKept(elems, r[k])
        ensures r[k].fieldId != "" && !StartsWith(r[k].fieldId, ItiPrefix)
      {
        if k < |rest| {
          assert r[k] == rest[k];
          var j :| 0 <= j < |init| && Keep(init[j]) && rest[k] == FieldOf(init[j]);
          assert init[j] == elems[j];
          assert Keep(elems[j]) && r[k] == FieldOf(elems[j]);
        } else {
          assert Keep(elems[|elems| - 1]) && r[k] == FieldOf(elems[|elems| - 1]);
        }
      }
    } else {
      assert ExtractFields(elems) == [];
    }
  }

  /** Document order: the fields of two consecutive runs of controls are
      the first run's fields followed by the second's. */
  lemma {:induction false} ExtractFieldsAppend(a: seq<Element>, b: seq<Element>)
    ensures ExtractFields(a + b) == ExtractFields(a) + ExtractFields(b)
    decreases |b|
  {
    if |b| == 0 {
      assert a + b == a;
      assert ExtractFields(b) == [];
    } else {
      var b' := b[..|b| - 1];
      var e := b[|b| - 1];
      var tail := if Keep(e) then [FieldOf(e)] else [];
      ExtractFieldsAppend(a, b');
      assert ExtractFields(b) == ExtractFields(b') + tail;
      assert ExtractFields(a + b) == ExtractFields(a + b') + tail by {
        var ab := a + b;
        assert ab[..|ab| - 1] == a + b';
        assert ab[|ab| - 1] == e;
      }
      AppendAssoc(ExtractFields(a), ExtractFields(b'), tail);
    }
  }

  /** Every kept control yields its field. */
  lemma {:induction false} KeptElementExtracted(elems: seq<Element>, j: int)
    requires 0 <= j < |elems| && Keep(elems[j])
    ensures FieldOf(elems[j]) in ExtractFields(elems)
    decreases |elems|
  {
    var init := elems[..|elems| - 1];
    if j < |init| {
      assert init[j] == elems[j];
      KeptElementExtracted(init, j);
    }
  }

  lemma AppendAssoc(x: seq<FormField>, y: seq<FormField>, z: seq<FormField>)
    ensures x + y + z == x + (y + z)
  {
  }

  /** `extract_schema_from_page` as intended: a page without the
      application form is an error; otherwise a Greenhouse schema for the
      page's URL holding the intended fields. */
  function ExtractSchemaFromPage(page: Page): (r: Result<FormSchema, string>)
    ensures page.form.None? <==> r.Failure?
    ensures r.Failure? ==> r.error == FormNotFound
    ensures r.Success? ==>
      && r.value.atsType == "greenhouse"
      && r.value.formUrl == page.url
      && r.value.fields == ExtractFields(page.form.value)
  {
    match page.form
    case None => Failure(FormNotFound)
    case Some(elems) => Success(FormSchema("greenhouse", page.url, ExtractFields(elems)))
  }

  /** The loop as written: classifying a kept upload control raises, which
      aborts the whole extraction, and a bare `required` is not counted. */
  function ExtractFieldsAsWritten(elems: seq<Element>): (r: Result<seq<FormField>, string>)
    ensures r.Failure? <==> exists j :: 0 <= j < |elems| && Keep(elems[j]) && IsUpload(elems[j])
    decreases |elems|
  {
    if |elems| == 0 then Success([])
    else
      var init := elems[..|elems| - 1];
      var e := elems[|elems| - 1];
      assert forall j :: 0 <= j < |init| ==> init[j] == elems[j];
      match ExtractFieldsAsWritten(init)
      case Failure(err) => Failure(err)
      case Success(rest) =>
        if !Keep(e) then Success(rest)
        else match DetectFieldTypeAsWritten(e)
          case Failure(err) => Failure(err)
          case Success(_) => Success(rest + [FieldOfAsWritten(e)])
  }

  /** `written` is `intended` with some required flags cleared: same length,
      and each field agrees except that it may read as not required. */
  predicate RequiredOnlyDropped(written: seq<FormField>, intended: seq<FormField>) {
    && |written| == |intended|
    && forall k :: 0 <= k < |written| ==>
         && written[k] == intended[k].(required := written[k].required)
         && (written[k].required ==> intended[k].required)
  }

  /** No control carries an empty-valued `required` attribute. */
  predicate NoBareRequired(elems: seq<Element>) {
    forall j :: 0 <= j < |elems| ==> elems[j].requiredAttr != Some("")
  }

  /** When the written loop succeeds, its fields are the intended ones with
      at most some required flags cleared, and they are exactly the
      intended ones when no control has a bare `required`. */
  lemma {:induction false} WrittenFieldsAgree(elems: seq<Element>)
    requires ExtractFieldsAsWritten(elems).Success?
    ensures RequiredOnlyDropped(ExtractFieldsAsWritten(elems).value, ExtractFields(elems))
    ensures NoBareRequired(elems) ==> ExtractFieldsAsWritten(elems).value == ExtractFields(elems)
    decreases |elems|
  {
    if |elems| > 0 {
      var init := elems[..|elems| - 1];
      var e := elems[|elems| - 1];
      assert ExtractFieldsAsWritten(init).Success?;
      WrittenFieldsAgree(init);
      var wi := ExtractFieldsAsWritten(init).value;
      var fi := ExtractFields(init);
      var w := ExtractFieldsAsWritten(elems).value;
      var f := ExtractFields(elems);
      if Keep(e) {
        assert w == wi + [FieldOfAsWritten(e)];
        assert f == fi + [FieldOf(e)];
        forall k | 0 <= k < |w|
          ensures w[k] == f[k].(required := w[k].required) && (w[k].required ==> f[k].required)
        {
          if k < |wi| {
            assert w[k] == wi[k] && f[k] == fi[k];
          }
        }
        if NoBareRequired(elems) {
          assert NoBareRequired(init) by {
            forall j | 0 <= j < |init| ensures init[j].requiredAttr != Some("") {
              assert init[j] == elems[j];
            }
          }
          assert FieldOfAsWritten(e) == FieldOf(e);
        }
      } else {
        assert w == wi && f == fi;
        if NoBareRequired(elems) {
          assert NoBareRequired(init) by {
            forall j | 0 <= j < |init| ensures init[j].requiredAttr != Some("") {
              assert init[j] == elems[j];
            }
          }
        }
      }
    } else {
      assert ExtractFieldsAsWritten(elems).value == [] && ExtractFields(elems) == [];
    }
  }

  /** `extract_schema_from_page` as written: a missing form, or a kept
      upload control, is an error; otherwise the schema agrees with the
      intended one except that bare `required` flags are cleared. */
  function ExtractSchemaFromPageAsWritten(page: Page): (r: Result<FormSchema, string>)
    ensures r.Failure? <==> page.form.None? || exists j :: 0 <= j < |page.form.value| && Keep(page.form.value[j]) && IsUpload(page.form.value[j])
    ensures page.form.None? ==> r == Failure(FormNotFound)
    ensures r.Success? ==>
      && r.value.atsType == "greenhouse"
      && r.value.formUrl == page.url
      && RequiredOnlyDropped(r.value.fields, ExtractFields(page.form.value))
    ensures r.Success? && NoBareRequired(page.form.value) ==> r == ExtractSchemaFromPage(page)
  {
    match page.form
    case None => Failure(FormNotFound)
    case Some(elems) =>
      match ExtractFieldsAsWritten(elems)
      case Failure(err) => Failure(err)
      case Success(fields) =>
        WrittenFieldsAgree(elems);
        Success(FormSchema("greenhouse", page.url, fields))
  }

  /** A resume upload control, as Greenhouse application forms carry. */
  const ResumeInput := Element(Some("resume"), Some("file"), None, None, None, "INPUT", true, "Resume/CV")

  /** The upload defect exhibited: a form with a resume upload cannot be
      extracted as written, while the corrected classifier yields a required
      upload field. */
  lemma ResumeUploadBreaksExtraction()
    ensures ExtractFieldsAsWritten([ResumeInput]).Failure?
    ensures ExtractFields([ResumeInput]) == [FormField("resume", "Resume/CV", FileUpload, true, None)]
  {
    assert Keep(ResumeInput) by {
      assert !StartsWith("resume", ItiPrefix) by {
        assert "resume"[0] != ItiPrefix[0];
      }
    }
    assert IsUpload(ResumeInput) by {
      assert Lower("file") == "file";
    }
    assert [ResumeInput][0] == ResumeInput;
  }

  /** An email input whose only required marker is a bare `required`. */
  const BareRequiredEmail := Element(Some("email"), Some("email"), None, None, Some(""), "INPUT", false, "Email")

  /** How the filter, the classifier and both required checks read the
      email input above. */
  lemma BareRequiredEmailRead()
    ensures Keep(BareRequiredEmail) && !IsUpload(BareRequiredEmail)
    ensures DetectFieldType(BareRequiredEmail) == Email
    ensures IsRequired(BareRequiredEmail, "Email") && !IsRequiredAsWritten(BareRequiredEmail, "Email")
  {
    var e := BareRequiredEmail;
    assert !StartsWith("email", ItiPrefix) by {
      assert "email"[0] != ItiPrefix[0];
    }
    assert Lower("email") == "email";
    assert "email" != "file";
    TextFacts.ShortNeverContains("email", "resume");
    TextFacts.MissingCharNotContained("email", "cv", 'c');
    assert MentionsEmail(e);
    assert '*' !in "Email";
  }

  /** The `required` defect exhibited: as written the email field above is
      extracted as optional, as intended it is required. */
  lemma BareRequiredDroppedOnPage()
    ensures ExtractFieldsAsWritten([BareRequiredEmail]) == Success([FormField("email", "Email", Email, false, None)])
    ensures ExtractFields([BareRequiredEmail]) == [FormField("email", "Email", Email, true, None)]
  {
    var e := BareRequiredEmail;
    BareRequiredEmailRead();
    assert FieldOfAsWritten(e) == FormField("email", "Email", Email, false, None);
    assert FieldOf(e) == FormField("email", "Email", Email, true, None);
    var one := [e];
    assert one[..|one| - 1] == [] && one[|one| - 1] == e;
    assert ExtractFieldsAsWritten([]) == Success([]);
    assert DetectFieldTypeAsWritten(e) == Success(Email);
    assert ExtractFieldsAsWritten(one) == Success([] + [FieldOfAsWritten(e)]);
    assert [] + [FieldOfAsWritten(e)] == [FormField("email", "Email", Email, false, None)];
  }
}
