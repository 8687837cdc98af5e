/** The value records of the application pipeline: the candidate's CV and
    profile, a job posting, the tailored CV, and the declarative description
    of an application form. All are immutable. */
module Models {
  import opened Wrappers

  datatype Experience = Experience(
    company: string,
    role: string,
    startDate: Option<string>,
    endDate: Option<string>,
    description: Option<string>)

  datatype Education = Education(
    institution: string,
    degree: Option<string>,
    fieldOfStudy: Option<string>,
    startDate: Option<string>,
    endDate: Option<string>)

  /** The candidate's CV. `resumePath` is read by the label-heuristic mapper
      but not declared by the source's record; it is an optional field here. */
  datatype CV = CV(
    fullName: string,
    email: Option<string>,
    location: Option<string>,
    summary: Option<string>,
    skills: seq<string>,
    experience: seq<Experience>,
    education: seq<Education>,
    rawText: Option<string>,
    resumePath: Option<string>)

  /** A job posting. The record declares `application_url` while the nodes
      read `apply_url`; both are the one field `applyUrl` here. */
  datatype Job = Job(
    id: Option<string>,
    title: string,
    company: string,
    location: Option<string>,
    employmentType: Option<string>,
    requiredSkills: seq<string>,
    description: Option<string>,
    applyUrl: Option<string>,
    source: Option<string>)

  /** The CV tailored for one job by the optimizer. */
  datatype OptimizedCV = OptimizedCV(
    originalCv: CV,
    job: Job,
    tailoredSummary: Option<string>,
    tailoredSkills: seq<string>,
    tailoredExperience: Option<string>,
    fullText: Option<string>)

  /** The candidate's structured profile. */
  datatype UserProfile = UserProfile(
    firstName: string,
    lastName: string,
    email: string,
    phone: string,
    country: string,
    resumePath: string,
    linkedin: Option<string>,
    website: Option<string>)

  /** Kinds of form input, the members of `FormFieldType`. */
  datatype FormFieldType =
    | TextField | TextArea | Email | Phone | Select | MultiSelect
    | Checkbox | FileUpload | Date | Number | Url

  datatype FormField = FormField(
    fieldId: string,
    labelText: string,
    fieldType: FormFieldType,
    required: bool,
    mappingHint: Option<string>)

  datatype FormSchema = FormSchema(
    atsType: string,
    formUrl: string,
    fields: seq<FormField>)

  /** Field ids are unique within one schema. */
  predicate UniqueIds(fields: seq<FormField>) {
    forall i, j :: 0 <= i < j < |fields| ==> fields[i].fieldId != fields[j].fieldId
  }

  /** A value held in a field mapping: a string, a list, or some other
      object (a nested record such as an `Experience`). */
  datatype Value = Str(s: string) | List(items: seq<Value>) | Object(kind: string)

  /** `field_mapping`: field id to an optional value. */
  type FieldMapping = map<string, Option<Value>>

  /** `mapping.get(id)`. */
  function Lookup(m: FieldMapping, id: string): Option<Value> {
    if id in m then m[id] else None
  }

  datatype MappedField = MappedField(fieldId: string, value: string)

  datatype FieldMappingResult = FieldMappingResult(
    schema: FormSchema,
    mappedFields: seq<MappedField>,
    missingRequiredFields: seq<string>)

  /** Python truthiness of an optional string: present and non-empty. */
  predicate Truthy(s: Option<string>) {
    s.Some? && s.value != ""
  }
}
