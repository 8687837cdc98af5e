/** The node bodies of the application state machine (`graph/nodes.py` and
    `graph/nodes_submission.py`), each a pure function of the state. A node
    that raises in the source (a failed assertion, an attribute read on
    `None`) yields `Failure` with the error text. */
module Nodes {
  import opened Wrappers
  import opened Models
  import opened Queue
  import opened Ledger
  import opened Validator
  import opened HintMapper
  import opened GraphState

  /** What one call of the external CV optimizer does: return a tailored
      CV, or raise. */
  datatype OptimizeOutcome = Produced(cv: OptimizedCV) | Raised(message: string)

  /** The optimizer as an oracle. Its first argument is the number of
      optimizer calls made before this one, so its behaviour may differ
      from call to call. */
  type Optimizer = (nat, CV, Job) -> OptimizeOutcome

  /** The schema extraction for a job and the detected ATS. */
  type Extractor = (Job, Option<string>) -> Result<FormSchema, string>

  const OptFailedReason := "CV optimization failed after retries"
  const SubmissionFailedReason := "Submission failed"
  const DetectedAts := "unknown"

  /** `pop_job_node`: takes the head of the queue as the current job, or
      clears the current job when the queue is missing or empty. */
  function PopJobNode(st: State): (r: State)
    ensures (st.jobQueue.None? || IsEmpty(st.jobQueue.value)) ==>
      r == st.(currentJob := None)
    ensures (st.jobQueue.Some? && !IsEmpty(st.jobQueue.value)) ==>
      && r.currentJob == Some(st.jobQueue.value.jobs[0])
      && r.jobQueue == Some(JobQueue(st.jobQueue.value.jobs[1..]))
      && r == st.(currentJob := r.currentJob, jobQueue := r.jobQueue)
  {
    match st.jobQueue
    case None => st.(currentJob := None)
    case Some(q) =>
      match PopNext(q)
      case Failure(_) => st.(currentJob := None)
      case Success((job, rest)) => st.(currentJob := Some(job), jobQueue := Some(rest))
  }

  /** The optimizer is called: a current job, a CV and an optimizer are all
      present. */
  predicate CallsOptimizer(st: State) {
    st.currentJob.Some? && st.cv.Some? && st.optimizer.Some?
  }

  /** `optimize_cv_node`. Only the tailored CV and the retry counter change;
      an exception of the optimizer is absorbed into the retry counter. */
  function OptimizeCvNode(st: State, optimize: Optimizer, call: nat): (r: State)
    ensures r == st.(currentOptimizedCv := r.currentOptimizedCv, retryCount := r.retryCount)
    ensures st.currentJob.None? ==> r.currentOptimizedCv.None? && r.retryCount == st.retryCount
    ensures st.currentJob.Some? && !CallsOptimizer(st) ==>
      r.currentOptimizedCv.None? && r.retryCount == st.retryCount + 1
    ensures CallsOptimizer(st) ==>
      match optimize(call, st.cv.value, st.currentJob.value)
      case Produced(o) => r.currentOptimizedCv == Some(o) && r.retryCount == 0
      case Raised(_) => r.currentOptimizedCv.None? && r.retryCount == st.retryCount + 1
  {
    match st.currentJob
    case None => st.(currentOptimizedCv := None)
    case Some(job) =>
      if st.cv.None? || st.optimizer.None? then
        st.(currentOptimizedCv := None, retryCount := st.retryCount + 1)
      else
        match optimize(call, st.cv.value, job)
        case Produced(o) => st.(currentOptimizedCv := Some(o), retryCount := 0)
        case Raised(_) => st.(retryCount := st.retryCount + 1, currentOptimizedCv := None)
  }

  /** The ledger entry of a job whose optimization failed for good. */
  function OptFailedEntry(job: Job): Entry {
    Entry(job.company, job.title, Failed, Some(OptFailedReason), Some("str"))
  }

  /** `optimization_failed_node`: records the failure when there is a job
      and a ledger, then clears the job and the retry counter. */
  function OptimizationFailedNode(st: State): (r: State)
    ensures r == st.(currentJob := None, retryCount := 0, resultStore := r.resultStore)
    ensures st.currentJob.Some? && st.resultStore.Some? ==>
      && r.resultStore.Some?
      && r.resultStore.value.jobs == st.resultStore.value.jobs + [OptFailedEntry(st.currentJob.value)]
      && r.resultStore.value.candidate == st.resultStore.value.candidate
    ensures st.currentJob.None? || st.resultStore.None? ==> r.resultStore == st.resultStore
  {
    var store :=
      if st.currentJob.Some? && st.resultStore.Some? then
        Some(RecordFailure(st.resultStore.value, st.currentJob.value.company,
                           st.currentJob.value.title, OptFailedReason))
      else st.resultStore;
    st.(currentJob := None, retryCount := 0, resultStore := store)
  }

  /** The SUBMIT_START node the graph wires: logs the job (which raises
      when there is none) and resets the submission attempts. */
  function SubmitStartNode(st: State): (r: Result<State, string>)
    ensures r.Failure? <==> st.currentJob.None?
    ensures r.Success? ==> r.value == st.(submissionAttempts := 0)
  {
    if st.currentJob.None? then Failure("AttributeError: current_job is None")
    else Success(st.(submissionAttempts := 0))
  }

  /** `detect_ats_node`: a placeholder that always reports an unknown ATS. */
  function DetectAtsNode(st: State): State {
    st.(atsType := Some(DetectedAts))
  }

  /** `extract_schema_node`: requires a current job, and stores the schema
      the extractor yields for it. */
  function ExtractSchemaNode(st: State, extract: Extractor): (r: Result<State, string>)
    ensures st.currentJob.None? ==> r.Failure?
    ensures st.currentJob.Some? ==> (r.Success? <==> extract(st.currentJob.value, st.atsType).Success?)
    ensures r.Success? ==> r.value == st.(formSchema := Some(extract(st.currentJob.value, st.atsType).value))
  {
    match st.currentJob
    case None => Failure("AssertionError: extract_schema_node called without current_job")
    case Some(job) =>
      match extract(job, st.atsType)
      case Failure(e) => Failure(e)
      case Success(schema) => Success(st.(formSchema := Some(schema)))
  }

  /** The four fields of the source's deterministic schema stub. */
  const StubFields: seq<FormField> := [
    FormField("full_name", "Full Name", TextField, true, Some("cv.full_name")),
    FormField("email", "Email", Email, true, Some("cv.email")),
    FormField("resume", "Resume", FileUpload, true, Some("optimized_cv.file")),
    FormField("cover_letter", "Cover Letter", TextArea, false, Some("optimized_cv.cover_letter"))
  ]

  /** The stub extractor: the schema record demands a string ATS type and
      form URL, so a missing one makes its construction raise. */
  function StubExtract(job: Job, ats: Option<string>): (r: Result<FormSchema, string>)
    ensures r.Success? <==> ats.Some? && job.applyUrl.Some?
    ensures r.Success? ==>
      && r.value.atsType == ats.value
      && r.value.formUrl == job.applyUrl.value
      && |r.value.fields| == 4
      && UniqueIds(r.value.fields)
      && forall i :: 0 <= i < |r.value.fields| ==>
           (r.value.fields[i].required <==> r.value.fields[i].fieldId in {"full_name", "email", "resume"})
  {
    if ats.None? || job.applyUrl.None? then Failure("ValidationError: SubmissionFormSchema")
    else Success(FormSchema(ats.value, job.applyUrl.value, StubFields))
  }

  /** `map_fields_node`: requires a schema, and maps every field id to its
      resolved hint. */
  function MapFieldsNode(st: State): (r: Result<State, string>)
    ensures r.Failure? <==> st.formSchema.None?
    ensures r.Success? ==>
      && r.value.fieldMapping.Some?
      && r.value == st.(fieldMapping := r.value.fieldMapping)
      && r.value.fieldMapping.value.Keys == set f | f in st.formSchema.value.fields :: f.fieldId
    ensures r.Success? && UniqueIds(st.formSchema.value.fields) ==>
      forall i :: 0 <= i < |st.formSchema.value.fields| ==>
        r.value.fieldMapping.value[st.formSchema.value.fields[i].fieldId]
          == HintValue(st.cv, st.currentOptimizedCv, st.formSchema.value.fields[i])
  {
    match st.formSchema
    case None => Failure("AssertionError: map_fields_node called without form_schema")
    case Some(schema) =>
      HintMappingKeys(st.cv, st.currentOptimizedCv, schema.fields);
      UniqueIdsImpliesEveryField(st, schema.fields);
      Success(st.(fieldMapping := Some(HintMapping(st.cv, st.currentOptimizedCv, schema.fields))))
  }

  lemma UniqueIdsImpliesEveryField(st: State, fields: seq<FormField>)
    ensures UniqueIds(fields) ==>
      forall i :: 0 <= i < |fields| ==>
        fields[i].fieldId in HintMapping(st.cv, st.currentOptimizedCv, fields) &&
        HintMapping(st.cv, st.currentOptimizedCv, fields)[fields[i].fieldId]
          == HintValue(st.cv, st.currentOptimizedCv, fields[i])
  {
    if UniqueIds(fields) {
      UniqueIdsMapEveryField(st.cv, st.currentOptimizedCv, fields);
    }
  }

  /** `fill_form_node`: a stub; the browser side effect is not modelled. */
  function FillFormNode(st: State): State {
    st
  }

  /** `validate_form_node`: requires a schema and a mapping, and counts one
      more attempt exactly when a required field is missing, that is,
      exactly when the routing check finds the form invalid. */
  function ValidateFormNode(st: State): (r: Result<State, string>)
    ensures r.Failure? <==> st.formSchema.None? || st.fieldMapping.None?
    ensures r.Success? ==> r.value == st.(submissionAttempts := r.value.submissionAttempts)
    ensures r.Success? ==>
      && (IsFormValid(st.formSchema, st.fieldMapping) ==> r.value.submissionAttempts == st.submissionAttempts)
      && (!IsFormValid(st.formSchema, st.fieldMapping) ==> r.value.submissionAttempts == st.submissionAttempts + 1)
  {
    if st.formSchema.None? then Failure("AssertionError: validate_form_node called without form_schema")
    else if st.fieldMapping.None? then Failure("AssertionError: validate_form_node called without field_mapping")
    else
      var missing := MissingFields(st.formSchema.value.fields, st.fieldMapping.value);
      ValidIffNothingMissing(st.formSchema.value, st.fieldMapping.value);
      if |missing| > 0 then Success(st.(submissionAttempts := st.submissionAttempts + 1))
      else Success(st)
  }

  /** `confirm_submission_node`: a stub that counts one more attempt. */
  function ConfirmSubmissionNode(st: State): State {
    st.(submissionAttempts := st.submissionAttempts + 1)
  }

  /** `submit_success_node`: records the job as submitted and clears the
      job and the tailored CV; a missing job or ledger raises. */
  function SubmitSuccessNode(st: State): (r: Result<State, string>)
    ensures r.Failure? <==> st.currentJob.None? || st.resultStore.None?
    ensures r.Success? ==>
      && r.value == st.(currentJob := None, currentOptimizedCv := None, resultStore := r.value.resultStore)
      && r.value.resultStore.Some?
      && r.value.resultStore.value.candidate == st.resultStore.value.candidate
      && r.value.resultStore.value.jobs == st.resultStore.value.jobs
           + [Entry(st.currentJob.value.company, st.currentJob.value.title, Submitted, None, None)]
  {
    if st.currentJob.None? then Failure("AttributeError: current_job is None")
    else if st.resultStore.None? then Failure("AttributeError: result_store is None")
    else
      var job := st.currentJob.value;
      Success(st.(resultStore := Some(RecordSuccess(st.resultStore.value, job.company, job.title)),
                  currentJob := None, currentOptimizedCv := None))
  }

  /** `submit_failed_node`: records the job as failed with the reason
      "Submission failed" and clears the job and the tailored CV. */
  function SubmitFailedNode(st: State): (r: Result<State, string>)
    ensures r.Failure? <==> st.currentJob.None? || st.resultStore.None?
    ensures r.Success? ==>
      && r.value == st.(currentJob := None, currentOptimizedCv := None, resultStore := r.value.resultStore)
      && r.value.resultStore.Some?
      && r.value.resultStore.value.candidate == st.resultStore.value.candidate
      && r.value.resultStore.value.jobs == st.resultStore.value.jobs
           + [Entry(st.currentJob.value.company, st.currentJob.value.title, Failed,
                    Some(SubmissionFailedReason), Some("str"))]
  {
    if st.currentJob.None? then Failure("AttributeError: current_job is None")
    else if st.resultStore.None? then Failure("AttributeError: result_store is None")
    else
      var job := st.currentJob.value;
      Success(st.(resultStore := Some(RecordFailure(st.resultStore.value, job.company, job.title,
                                                    SubmissionFailedReason)),
                  currentJob := None, currentOptimizedCv := None))
  }

  /** `submit_job_node`, which the graph does not wire: without a tailored
      CV it does nothing; with one it reads a submission agent the state
      record does not declare, and raises. */
  function SubmitJobNode(st: State): (r: Result<State, string>)
    ensures st.currentOptimizedCv.None? <==> r.Success?
    ensures r.Success? ==> r.value == st
  {
    if st.currentOptimizedCv.None? then Success(st)
    else Failure("AttributeError: 'GraphState' object has no attribute 'submission_agent'")
  }
}
