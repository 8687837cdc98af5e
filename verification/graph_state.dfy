/** The shared record of the application state machine (`GraphState`):
    the job flow, the candidate's data, the two retry budgets, the
    submission slots and the run ledger. */
module GraphState {
  import opened Wrappers
  import opened Models
  import opened Queue
  import opened Ledger

  /** An external collaborator held by the state (the CV optimizer, the
      browser executor); only its identity matters to the engine. */
  datatype Handle = Handle(id: nat)

  datatype State = State(
    jobQueue: Option<JobQueue>,
    currentJob: Option<Job>,
    userProfile: Option<UserProfile>,
    cv: Option<CV>,
    currentOptimizedCv: Option<OptimizedCV>,
    optimizer: Option<Handle>,
    retryCount: int,
    maxRetries: int,
    atsType: Option<string>,
    executor: Option<Handle>,
    formSchema: Option<FormSchema>,
    fieldMapping: Option<FieldMapping>,
    submissionAttempts: int,
    maxSubmissionAttempts: int,
    resultStore: Option<ResultStore>)

  const DefaultMaxRetries := 3
  const DefaultMaxSubmissionAttempts := 2

  /** A freshly constructed state: both counters at zero, the default
      budgets, and every job, data, collaborator and submission slot empty. */
  function Initial(): (r: State)
    ensures r.retryCount == 0 && r.maxRetries == DefaultMaxRetries
    ensures r.submissionAttempts == 0 && r.maxSubmissionAttempts == DefaultMaxSubmissionAttempts
    ensures r.jobQueue.None? && r.currentJob.None? && r.userProfile.None? && r.cv.None?
    ensures r.currentOptimizedCv.None? && r.optimizer.None? && r.atsType.None? && r.executor.None?
    ensures r.formSchema.None? && r.fieldMapping.None? && r.resultStore.None?
  {
    State(None, None, None, None, None, None, 0, DefaultMaxRetries, None, None, None, None,
          0, DefaultMaxSubmissionAttempts, None)
  }
}
