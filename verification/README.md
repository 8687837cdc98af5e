# Job-application orchestration, modelled in Dafny

This project models the core of *multi-agent-job-seeker*. That core is a
state machine which takes job postings from a FIFO queue and handles each
one in turn:

- It tailors the candidate's CV for the posting with an external optimizer,
  retrying a bounded number of times.
- It walks a submission sub-graph: SUBMIT_START, DETECT_ATS, EXTRACT_SCHEMA,
  then the MAP_FIELDS, FILL_FORM, VALIDATE_FORM loop, then CONFIRM_SUBMIT.
  The loop has its own attempt budget.
- It records one outcome per job, `submitted` or `failed`, in a run ledger.

Beside the graph, the project also models:

- the three deterministic form-field mappers (mapping hints, label
  heuristics, the user profile);
- the shared required-field validator;
- the Greenhouse field classifier;
- the ATS-classifying start node;
- the earlier non-graph `process_jobs` loop;
- the supervisor's job-query choice.

Everything is functional. States are immutable datatypes. Each node is a
pure function that returns the new state, or `Failure` with the error text
where the source raises. The graph runtime becomes an explicit `Step`
function and a `Run` loop. `Run` terminates under a lexicographic measure:
queued jobs, then the phase of the current pass, then the remaining retry
budget, then the position in the validation loop. The optimizer and the
schema extraction are function-valued parameters (oracles). The optimizer
oracle is indexed by the number of optimizer calls so far, so it may answer
differently on every call.

Modules, in dependency order:

| module | models |
|---|---|
| `Wrappers`, `Text`, `TextFacts` | `Option`/`Result`, and the Python string operations used (`lower`, `strip`, `in`, `replace`, `split(" ", 1)`, `join`) with their laws |
| `Models` | CV, job, tailored CV, profile, form field and schema records |
| `Queue` | `models/job_queue.py` |
| `Ledger` | `storage/result_store.py`, in memory |
| `GraphState` | `graph/state.py` |
| `Validator` | `_is_form_valid` and the check in `validate_form_node` |
| `HintMapper` | `_resolve_mapping_hint` and the hint-driven `map_fields_node` |
| `Nodes` | the node bodies of `graph/nodes.py` and `graph/nodes_submission.py` |
| `Workflow` | routing, `Step`, `Run`, the two retry loops |
| `Accounting` | whole-run theorems: one ledger entry per job, where a run can raise, the dead CONFIRM_SUBMIT → SUBMIT_FAILED edge, the retry-counter reset |
| `WiredGraph` | the graph with its own stub schema extractor: it never submits |
| `AtsStart` | `graph/node_submission/submit_start_node.py` |
| `GreenhouseMapper` | `execution/greenhouse/steps/map_fields.py` |
| `ProfileMapper` | `mapping/map_profile_to_schema.py` |
| `SchemaExtraction` | `execution/greenhouse/steps/extract_schema.py`, with each DOM element as a record of its attributes |
| `Supervisor` | `agents/supervisor_agent.py` |
| `SubmissionAgent` | `agents/submission_agent.py` |

Where the system's documentation and its code disagree, the model follows
the code:

- `pop_job_node` neither clears the tailored CV nor resets the attempt
  counter.
- The graph wires the stub SUBMIT_START of `graph/nodes_submission.py`, not
  the ATS-classifying one.
- DETECT_ATS always reports `"unknown"`.
- A `user_profile.` mapping hint resolves to nothing.
- No rule chooses between the profile's names and the names split from the
  CV.

The stub schema hints its resume field as `optimized_cv.file`. The tailored
CV has no attribute `file`, so that required field never resolves. As a
result, the wired graph never records a submission
(`WiredGraph.WiredGraphNeverSubmits`).

## Model

| member | source | states |
|---|---|---|
| `Queue.PopNext` | models/job_queue.py:18-21 | fails with "Cannot pop from an empty JobQueue" exactly when the queue is empty; otherwise returns the head, and the remaining queue is the tail in order, one shorter |
| `Queue.Add` | models/job_queue.py:23-24 | appends at the tail: one longer, earlier jobs unchanged, the new job last |
| `Queue.DrainYieldsContents` | models/job_queue.py:15-21 | popping until the queue is empty yields exactly its jobs, in order |
| `Queue.FifoOrder` | models/job_queue.py:8-24 | jobs added to a queue leave it after the jobs already there, in the order they were added |
| `Ledger.NewStore` | storage/result_store.py:12-22 | a new ledger records the candidate and has no entries |
| `Ledger.RecordSuccess` | storage/result_store.py:24-32 | appends exactly one `submitted` entry for the company and title; earlier entries are unchanged |
| `Ledger.RecordFailure` | storage/result_store.py:34-44 | appends exactly one `failed` entry carrying the error text; earlier entries are unchanged |
| `Ledger.CountsPartition` | storage/result_store.py:47-50 | every entry is submitted or failed, so the two counts add up to the number of entries |
| `Ledger.Finalize` | storage/result_store.py:47-57 | the summary's total is the number of entries, `submitted` is the number of submitted entries and `failed` the number of failed ones; entries are untouched |
| `Ledger.RecordingUpdatesCounts` | storage/result_store.py:24-57 | recording a success raises the submitted count by one and leaves the failed count; recording a failure does the opposite |
| `Ledger.SaveIdempotent` | storage/result_store.py:65-69 | saving twice gives the same ledger and counts as saving once |
| `GraphState.Initial` | graph/state.py:22-46 | fresh state: retry count 0 with budget 3, attempts 0 with budget 2, every other slot empty |
| `Validator.MissingFields` | graph/nodes_submission.py:162-171 | an id is listed exactly when some required field with that id maps to nothing, `None`, `""` or `[]` |
| `Validator.AllRequiredFilled` | graph/workflow.py:91-97 | true exactly when no required field is blank |
| `Validator.IsFormValid` | graph/workflow.py:83-89 | a missing schema or mapping is never valid |
| `Validator.ValidIffNothingMissing` | graph/nodes_submission.py:162-173 | the routing check and the node's missing-field list agree: valid exactly when nothing is missing |
| `HintMapper.ResolveMappingHint` | graph/nodes_submission.py:10-29 | a hint outside both namespaces, a `cv.` hint without a CV, and an `optimized_cv.` hint without a tailored CV all resolve to `None`; nothing raises |
| `HintMapper.ResolveCvHint` | graph/nodes_submission.py:17-18 | `cv.<attr>` resolves to that CV attribute, or `None` when it is unknown |
| `HintMapper.ResolveOptimizedCvHint` | graph/nodes_submission.py:20-27 | `optimized_cv.<attr>` resolves to that attribute of the tailored CV |
| `HintMapper.HintMappingKeys` | graph/nodes_submission.py:122-130 | the mapping's keys are exactly the schema's field ids |
| `HintMapper.HintMappingAt` | graph/nodes_submission.py:124-130 | the last field with a given id holds its resolved hint, or `None` when it has no hint |
| `HintMapper.UniqueIdsMapEveryField` | graph/nodes_submission.py:122-138 | with unique ids, every field's id holds that field's resolved hint |
| `Nodes.PopJobNode` | graph/nodes.py:10-26 | a missing or empty queue clears the current job and changes nothing else; otherwise the head becomes the current job and the queue its tail |
| `Nodes.OptimizeCvNode` | graph/nodes.py:29-81 | only the tailored CV and retry count change. No job: the CV is cleared and the count kept. No CV or optimizer: count + 1. Optimizer result: stored, count reset to 0. Optimizer raises: CV cleared, count + 1 |
| `Nodes.OptimizationFailedNode` | graph/nodes.py:110-134 | with a job and a ledger, appends exactly one failure with "CV optimization failed after retries"; always clears the job and resets the retry count |
| `Nodes.SubmitStartNode` | graph/nodes_submission.py:33-40 | raises exactly when there is no job; otherwise only resets the attempt count to 0 |
| `Nodes.ExtractSchemaNode` | graph/nodes_submission.py:49-103 | raises without a job; otherwise succeeds exactly when extraction does, storing the schema and nothing else |
| `Nodes.StubExtract` | graph/nodes_submission.py:67-100 | four fields with distinct ids, exactly `full_name`, `email` and `resume` required; the schema cannot be built without an ATS type and an apply URL |
| `Nodes.MapFieldsNode` | graph/nodes_submission.py:107-139 | raises exactly when there is no schema; otherwise sets only the mapping, with the schema's ids as keys and, for unique ids, each field's resolved hint |
| `Nodes.ValidateFormNode` | graph/nodes_submission.py:148-186 | raises without a schema or mapping; otherwise counts one more attempt exactly when the form is invalid and changes nothing else |
| `Nodes.SubmitSuccessNode` | graph/nodes_submission.py:196-210 | raises without a job or ledger; otherwise appends exactly one `submitted` entry and clears the job and the tailored CV |
| `Nodes.SubmitFailedNode` | graph/nodes_submission.py:213-228 | raises without a job or ledger; otherwise appends exactly one `failed` entry, "Submission failed", and clears the job and the tailored CV |
| `Nodes.SubmitJobNode` | graph/nodes.py:85-106 | without a tailored CV, does nothing; with one, raises, because the state record has no `submission_agent` |
| `Workflow.Route` | graph/workflow.py:43-133 | only POP_JOB with no job leads to END. OPTIMIZE goes to SUBMIT_START / OPTIMIZE / OPT_FAILED. OPT_FAILED, SUBMIT_SUCCESS and SUBMIT_FAILED return to POP_JOB, and only they do. CONFIRM_SUBMIT succeeds exactly when attempts ≤ budget |
| `Workflow.StepProgress` | graph/workflow.py:43-133 | every step before END strictly decreases (queued jobs, phase, remaining budget, loop position), so every run terminates |
| `Workflow.OptimizeRetriesExactly` | graph/workflow.py:56-70 | with an optimizer that always raises, OPTIMIZE runs `max_retries` times in a row from retry count 0 (at least once), then OPT_FAILED |
| `Workflow.PrefixHead` | graph/workflow.py:76-78 | SUBMIT_START, DETECT_ATS and EXTRACT_SCHEMA follow unconditionally, reaching MAP_FIELDS with attempts 0, ATS "unknown" and the extracted schema |
| `Workflow.PrefixTail` | graph/workflow.py:79-80 | MAP_FIELDS then FILL_FORM lead to VALIDATE_FORM with the hint mapping in place |
| `Workflow.InvalidFormFailsRound` | graph/workflow.py:99-113 | an invalid form counts an attempt and goes round MAP_FIELDS and FILL_FORM back to VALIDATE_FORM while attempts remain, else to SUBMIT_FAILED |
| `Workflow.ValidateLoopEnds` | graph/workflow.py:99-113 | on a form that never validates, the loop ends at SUBMIT_FAILED after `Rounds` rounds, with that many attempts counted |
| `Workflow.ValidateRunsExactly` | graph/workflow.py:76-113 | from SUBMIT_START, when a required field never resolves, VALIDATE_FORM runs exactly `max_submission_attempts` times (at least once) and the run reaches SUBMIT_FAILED |
| `Accounting.OnlyExtractionRaises` | graph/workflow.py:26-40 | from any reachable configuration, every node except EXTRACT_SCHEMA completes without raising |
| `Accounting.RunSound` | graph/workflow.py:43-133 | a finished run extends the ledger by one entry per owed job, in order; a run that raises does so at EXTRACT_SCHEMA |
| `Accounting.EveryJobRecordedOnce` | graph/workflow.py:43-133 | a finished run keeps the earlier entries and appends exactly one entry per queued job, with its company and title, in queue order |
| `Accounting.ConfirmSucceeds` | graph/nodes_submission.py:190-193 | CONFIRM_SUBMIT counts one attempt and, with a positive budget, moves to SUBMIT_SUCCESS |
| `Accounting.ConfirmNeverFails` | graph/workflow.py:116-127 | with a positive budget, every CONFIRM_SUBMIT a run reaches is followed by SUBMIT_SUCCESS; the SUBMIT_FAILED edge is dead |
| `Accounting.RetryZeroAtPopJob` | graph/nodes.py:61-132 | each time a run enters POP_JOB the retry count is 0: a success resets it and so does OPT_FAILED |
| `WiredGraph.ResumeHintUnresolved` | graph/nodes_submission.py:85-91 | the stub's resume hint `optimized_cv.file` resolves to nothing, with or without a tailored CV |
| `WiredGraph.StubFormInvalid` | graph/nodes_submission.py:67-100 | the stub schema is never valid under its own hint mapping |
| `WiredGraph.WiredGraphNeverSubmits` | graph/workflow.py:10-20 | a finished run of the graph as wired appends only `failed` entries |
| `AtsStart.ClassifyAts` | graph/node_submission/submit_start_node.py:18-23 | "greenhouse" exactly when the lower-cased URL contains "greenhouse.io", else "unsupported" |
| `AtsStart.ClassifyIgnoresCase` | graph/node_submission/submit_start_node.py:18 | lower-casing the URL first does not change the classification |
| `AtsStart.AtsSubmitStart` | graph/node_submission/submit_start_node.py:5-52 | succeeds exactly for a job with a Greenhouse URL. On success the executor is present; an existing one is kept, otherwise the new one is used; only the ATS type and executor change. Every failed check comes before executor creation |
| `AtsStart.ExecutorCreatedOnce` | graph/node_submission/submit_start_node.py:28-41 | running the node again keeps the first executor and changes nothing |
| `GreenhouseMapper.NormalizeIdempotent` | execution/greenhouse/steps/map_fields.py:9-10 | normalizing twice equals normalizing once |
| `GreenhouseMapper.FirstMatch` | execution/greenhouse/steps/map_fields.py:27-30 | the index of the first table entry, in order, with a keyword in the label; `None` only when no entry matches |
| `GreenhouseMapper.MatchIn` | execution/greenhouse/steps/map_fields.py:24-32 | the candidate's value for the first target with a keyword in the label; `None` when nothing matches |
| `GreenhouseMapper.SplitFullName` | execution/greenhouse/steps/map_fields.py:50-58 | an empty name gives neither part. Otherwise the first part has no space, and first + " " + rest is the stripped name, or first alone when there is no space |
| `GreenhouseMapper.ResumeRuleWins` | execution/greenhouse/steps/map_fields.py:67-68 | a field with id "resume" or "resume" in its label takes the resume path, before any other rule |
| `GreenhouseMapper.FirstNameIdRule` | execution/greenhouse/steps/map_fields.py:62-77 | id `first_name` without "resume" in the label takes the first-name rule |
| `GreenhouseMapper.LastNameIdRule` | execution/greenhouse/steps/map_fields.py:62-80 | id `last_name`, with neither "resume" nor "first" in the label, takes the last-name rule |
| `GreenhouseMapper.SkillsJoined` | execution/greenhouse/steps/map_fields.py:92-93 | a skills field holds the skills joined with ", " |
| `GreenhouseMapper.MapFields` | execution/greenhouse/steps/map_fields.py:35-109 | keys are exactly the ids of fields whose rule gives a value; the last such field with an id supplies its value |
| `GreenhouseMapper.MapFieldsNode` | execution/greenhouse/steps/map_fields.py:35-60 | raises exactly when the state has no CV or no schema (the CV is read first); otherwise the mapping is `MapFields` of the schema's fields, keyed only by schema ids |
| `GreenhouseMapper.UniqueIdsMapEveryValue` | execution/greenhouse/steps/map_fields.py:96-105 | with unique ids, every field that gets a value is mapped to it |
| `GreenhouseMapper.TwoFieldsMapped` | execution/greenhouse/steps/map_fields.py:96-105 | two fields with distinct ids that both get values map to exactly those two entries |
| `GreenhouseMapper.NameSplitMapping` | execution/greenhouse/steps/map_fields.py:50-80 | first- and last-name fields for "Jane Mary Doe" map to exactly "Jane" and "Mary Doe" |
| `ProfileMapper.ProfileValue` | mapping/map_profile_to_schema.py:15-32 | the six ids take their profile attribute (`resume` the resume path); otherwise "linkedin" in the label before "website"; otherwise nothing |
| `ProfileMapper.MapAll` | mapping/map_profile_to_schema.py:14-42 | a field is in the mapped list exactly when its value is truthy, and in the missing list exactly when it is required and not mapped |
| `ProfileMapper.MapProfileToSchema` | mapping/map_profile_to_schema.py:6-48 | carries the input schema unchanged, with the two lists as above |
| `ProfileMapper.MapAllAppend` | mapping/map_profile_to_schema.py:14-42 | both lists follow schema order: the lists for a concatenation are the concatenated lists |
| `ProfileMapper.NoFieldInBothLists` | mapping/map_profile_to_schema.py:34-42 | with unique ids, no field is both mapped and missing |
| `SchemaExtraction.DetectFieldType` | execution/greenhouse/steps/extract_schema.py:71-89 | as intended: `FILE_UPLOAD` exactly for type "file" or "resume"/"cv" in the lower-cased id; then email, phone, text area, text, in that priority |
| `SchemaExtraction.DetectFieldTypeAsWritten` | execution/greenhouse/steps/extract_schema.py:76-77 | raises exactly on upload elements and otherwise agrees with the intended classifier |
| `SchemaExtraction.ExtractedFieldsKept` | execution/greenhouse/steps/extract_schema.py:20-43 | every extracted field comes from a kept element: a non-empty id, not `iti-`, not hidden |
| `SchemaExtraction.KeptElementExtracted` | execution/greenhouse/steps/extract_schema.py:20-43 | every kept element yields its field |
| `SchemaExtraction.ExtractFieldsAppend` | execution/greenhouse/steps/extract_schema.py:20-36 | fields come out in document order: extracting a concatenation concatenates the results |
| `SchemaExtraction.ExtractSchemaFromPage` | execution/greenhouse/steps/extract_schema.py:11-51 | the corrected extraction (uploads classified, bare `required` counted): a page without the form fails with "Greenhouse application form not found"; otherwise ATS "greenhouse", the page URL and the intended fields |
| `SchemaExtraction.ExtractFieldsAsWritten` | execution/greenhouse/steps/extract_schema.py:18-43 | as written, the loop fails exactly when some kept element is an upload |
| `SchemaExtraction.WrittenFieldsAgree` | execution/greenhouse/steps/extract_schema.py:18-43 | when the written loop succeeds, its fields are the intended ones in the same order, differing at most by cleared `required` flags, and equal to them when no control has a bare `required` |
| `SchemaExtraction.ExtractSchemaFromPageAsWritten` | execution/greenhouse/steps/extract_schema.py:11-51 | as written: fails exactly when the form is missing ("Greenhouse application form not found") or a kept control is an upload; otherwise ATS "greenhouse", the page URL, and fields that differ from the corrected schema only by cleared `required` flags |
| `SchemaExtraction.ResumeUploadBreaksExtraction` | execution/greenhouse/steps/extract_schema.py:76-77 | a form with a resume upload cannot be extracted as written; the intended extraction yields a required upload field |
| `SchemaExtraction.BareRequiredIgnoredAsWritten` | execution/greenhouse/steps/extract_schema.py:103-104 | a bare `required` attribute, with no other signal, reads as not required as written, and as required as intended |
| `SchemaExtraction.BareRequiredDroppedOnPage` | execution/greenhouse/steps/extract_schema.py:103-104 | an email input whose only marker is a bare `required` is extracted as optional as written and as required as intended |
| `SchemaExtraction.RequiredIntendedExtendsWritten` | execution/greenhouse/steps/extract_schema.py:97-126 | the intended check accepts exactly what the written one accepts, plus the empty-valued `required` attribute |
| `Supervisor.ResolveJobQuery` | agents/supervisor_agent.py:19-52 | never empty. The stripped user query when it is not blank; else the first experience entry's non-empty role; else the first skill + " Developer"; else "Software Engineer" |
| `Supervisor.UserQueryIsStripped` | agents/supervisor_agent.py:35-38 | a query taken from the user is already stripped |
| `Supervisor.LaterExperienceIgnored` | agents/supervisor_agent.py:41-45 | only the first experience entry is consulted |
| `SubmissionAgent.Attempt` | agents/submission_agent.py:45-60 | a job succeeds exactly when both the optimizer and the submission return normally, with the tailored CV as result |
| `SubmissionAgent.ExpectedEntries` | agents/submission_agent.py:36-60 | one entry per job, in order, each the outcome of that job's own optimizer and submission call |
| `SubmissionAgent.RepeatedJobMayDiffer` | agents/submission_agent.py:36-60 | two copies of one job are separate calls: the first can be recorded as failed and the second as submitted |
| `SubmissionAgent.SubmittedMatchesResults` | agents/submission_agent.py:45-60 | the ledger's `submitted` count equals the number of returned CVs |
| `SubmissionAgent.ProcessJobs` | agents/submission_agent.py:25-70 | drains the queue; records one entry per job in order; saves once, with total = queue length, submitted = returned CVs, failed = the rest; returns the CVs of exactly the jobs that succeeded |

## Left out

- The graph runtime (building, compiling and invoking the graph) is replaced
  by `Workflow.Step` and `Workflow.Run`. The runtime's recursion limit is
  not modelled: the graph is invoked without a configuration, so the
  default limit of 25 steps applies. A run longer than that raises in the
  source, for example one whose three jobs all succeed, while `Run` goes
  on to finish.
- Logging and printing have no behaviour to model.
- The CV optimizer is an oracle parameter. It is a network call to a
  language model whose retries sleep. In the graph it is indexed by the
  number of optimizer calls so far. In `process_jobs` the optimizer and
  the submitter are indexed by the job's position, so repeated equal jobs
  may get different outcomes (`SubmissionAgent.RepeatedJobMayDiffer`).
- The browser is not modelled: the executor, page opening, filling,
  scrolling and highlighting. FILL_FORM is the identity. The
  ATS-classifying start node assumes a constructed executor has a page.
- Two parts of schema extraction run in the page as JavaScript and are
  inputs: the label text (`_extract_label`) and the ancestor
  `aria-required` walk.
- File and clock I/O of the ledger are not modelled: the run id,
  timestamps, writing JSON in `save`, and `load`. `Ledger.Save` only
  finalizes the counts.
- An entry's error type is the class name of the error text, which is a
  string, so it is always `str`.
- The job record declares only `application_url`, and the record drops
  any other keyword it is built with. The nodes read `apply_url`. The
  model reads both names as one optional field `applyUrl`, the evident
  intent. With the records as written:
  - `getattr(job, "apply_url", None)` is always `None`, so the stub
    extraction at `graph/nodes_submission.py:67-69` fails schema validation
    for every job, since `form_url` must be a string. The wired graph
    therefore raises at EXTRACT_SCHEMA for the first job whose CV
    optimization succeeds.
  - The `hasattr(job, "apply_url")` assertion of the ATS-classifying start
    node (`graph/node_submission/submit_start_node.py:13`) fails for every
    job.

  `Nodes.StubExtract` and `AtsStart.AtsSubmitStart` describe the
  behaviour once the URL is readable, not these failures.
- The CV record does not declare `resume_path`. The model reads it as an
  optional field `resumePath`. As written, the Greenhouse mapper's resume
  rule (`execution/greenhouse/steps/map_fields.py:67-68`) raises an
  attribute error for any field with id `resume` or "resume" in its label.
  `GreenhouseMapper.FieldValue` and `GreenhouseMapper.ResumeRuleWins`
  describe the rule once the attribute exists. The hint resolver's
  attribute table (`HintMapper.CvAttribute`) follows the record as written:
  `cv.resume_path` resolves to nothing there.
- Text.Lower: lower-cases ASCII letters only. Python's `lower` also maps
  other characters, for example the Kelvin sign U+212A to `k`. A label
  such as "S\u212AILLS" takes the skills rule in the source but no rule in
  `GreenhouseMapper.RuleFor`, and a label "LIN\u212AEDIN" is treated the
  same way by `ProfileMapper.ProfileValue`. Unicode case tables are not
  modelled.
- Python attribute lookup by name (`getattr`) is a fixed table per record.
  Nested records resolve to opaque `Object` values.
- The stale duplicate state record in `models/state.py` is not part of this
  model, nor is the unused linear sub-graph in `graph/submission_workflow.py`.
- The drivers, scripts and tests are not part of this model, nor is the
  mock job matcher.
- `Validator.IsFormValid`'s contract states only the absent-schema or
  absent-mapping case. The per-field condition is the contract of
  `Validator.AllRequiredFilled`, which it calls.
- `Nodes.MapFieldsNode` states each field's value only for unique ids. For
  repeated ids, `HintMapper.HintMappingAt` gives the last field's value.
- `Accounting.EveryJobRecordedOnce` is stated for runs that start with a
  ledger. Without one, OPT_FAILED records nothing and SUBMIT_SUCCESS and
  SUBMIT_FAILED raise.
- Python integers are unbounded, so no counter wraps.

## Findings

| source | as written | input that shows it | evidently intended | confidence | as-written member | corrected member |
|---|---|---|---|---|---|---|
| execution/greenhouse/steps/extract_schema.py:76-77 | upload controls are classified as `FormFieldType.FILE`, which the enum in `models/submission/form_field_type.py` does not declare, so the lookup raises and the whole extraction aborts | a Greenhouse form containing `<input id="resume" type="file">` | classify uploads as `FILE_UPLOAD` and keep extracting | not executed | `SchemaExtraction.ResumeUploadBreaksExtraction` | `SchemaExtraction.DetectFieldType` |
| execution/greenhouse/steps/extract_schema.py:103-104 | the `required` attribute counts only when its value is non-empty, but a bare boolean `required` reads as the empty string | `<input id="email" required>` with no `aria-required`, no required ancestor and no asterisk in its label | the presence of the attribute marks the field required | not executed | `SchemaExtraction.BareRequiredDroppedOnPage` | `SchemaExtraction.RequiredIntendedExtendsWritten` |
