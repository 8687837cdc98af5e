/** The submission agent's job loop (`SubmissionAgent.process_jobs`), the
    earlier controller that runs without the graph: each job is optimized
    and submitted, and an exception from either is recorded as that job's
    failure before the loop moves on. */
module SubmissionAgent {
  import opened Wrappers
  import opened Models
  import opened Queue
  import opened Ledger
  import opened Nodes

  /** The CV optimizer as the agent calls it, once per job. It is a
      language-model call that may answer differently each time, so it is
      indexed by the position of the job in the run: equal jobs may get
      different outcomes. */
  type AgentOptimizer = (nat, CV, Job) -> OptimizeOutcome

  /** Submitting an application, indexed the same way: `None` when it
      returns normally, the text of the exception otherwise. */
  type Submitter = (nat, OptimizedCV) -> Option<string>

  /** What one job comes to: the tailored CV when both the optimizer and
      the submission return normally, the exception text otherwise. */
  function Attempt(optimize: AgentOptimizer, submit: Submitter, cv: CV, job: Job, k: nat): (r: Result<OptimizedCV, string>)
    ensures r.Success? <==> optimize(k, cv, job).Produced? && submit(k, optimize(k, cv, job).cv).None?
    ensures r.Success? ==> r.value == optimize(k, cv, job).cv
  {
    match optimize(k, cv, job)
    case Raised(e) => Failure(e)
    case Produced(o) =>
      match submit(k, o)
      case Some(e) => Failure(e)
      case None => Success(o)
  }

  /** The ledger entry of one job's outcome. */
  function EntryOf(job: Job, r: Result<OptimizedCV, string>): Entry {
    match r
    case Success(_) => Entry(job.company, job.title, Submitted, None, None)
    case Failure(e) => Entry(job.company, job.title, Failed, Some(e), Some("str"))
  }

  /** The entries the loop records for `jobs`, in order; the job at
      position `i` is the run's `i`-th call. */
  function ExpectedEntries(optimize: AgentOptimizer, submit: Submitter, cv: CV, jobs: seq<Job>): (es: seq<Entry>)
    ensures |es| == |jobs|
    ensures forall i :: 0 <= i < |jobs| ==> es[i] == EntryOf(jobs[i], Attempt(optimize, submit, cv, jobs[i], i))
    decreases |jobs|
  {
    if |jobs| == 0 then []
    else
      var init := jobs[..|jobs| - 1];
      ExpectedEntries(optimize, submit, cv, init)
        + [EntryOf(jobs[|jobs| - 1], Attempt(optimize, submit, cv, jobs[|jobs| - 1], |jobs| - 1))]
  }

  /** The tailored CVs of the jobs that succeed, in order. */
  function ExpectedResults(optimize: AgentOptimizer, submit: Submitter, cv: CV, jobs: seq<Job>): (rs: seq<OptimizedCV>)
    ensures |rs| <= |jobs|
    decreases |jobs|
  {
    if |jobs| == 0 then []
    else
      var init := jobs[..|jobs| - 1];
      var r := Attempt(optimize, submit, cv, jobs[|jobs| - 1], |jobs| - 1);
      ExpectedResults(optimize, submit, cv, init) + (if r.Success? then [r.value] else [])
  }

  /** Each returned CV matches one `submitted` entry: the ledger counts as
      many submissions as there are results. */
  lemma {:induction false} SubmittedMatchesResults(optimize: AgentOptimizer, submit: Submitter, cv: CV, jobs: seq<Job>)
    ensures CountStatus(ExpectedEntries(optimize, submit, cv, jobs), Submitted)
         == |ExpectedResults(optimize, submit, cv, jobs)|
    decreases |jobs|
  {
    if |jobs| > 0 {
      var init := jobs[..|jobs| - 1];
      var e := EntryOf(jobs[|jobs| - 1], Attempt(optimize, submit, cv, jobs[|jobs| - 1], |jobs| - 1));
      SubmittedMatchesResults(optimize, submit, cv, init);
      CountAppend(ExpectedEntries(optimize, submit, cv, init), e, Submitted);
    }
  }

  /** Two copies of one job are two separate calls: an optimizer that
      fails on the first call and succeeds on the second records the first
      copy as failed and the second as submitted. */
  lemma RepeatedJobMayDiffer(cv: CV, job: Job, o: OptimizedCV)
    ensures var optimize: AgentOptimizer := (k: nat, c: CV, j: Job) => if k == 0 then Raised("timeout") else Produced(o);
            var submit: Submitter := (k: nat, x: OptimizedCV) => None;
            var es := ExpectedEntries(optimize, submit, cv, [job, job]);
            es[0].status == Failed && es[1].status == Submitted
  {
  }

  /** `process_jobs`: drains the queue, records one entry per job, saves the
      ledger once after the loop, and returns the tailored CVs of the jobs
      that succeeded. The queue is emptied, as the source's in-place pops
      leave it. */
  method ProcessJobs(optimize: AgentOptimizer, submit: Submitter, cv: CV, queue: JobQueue)
    returns (results: seq<OptimizedCV>, store: ResultStore, drained: JobQueue)
    ensures IsEmpty(drained)
    ensures store.candidate == cv.fullName
    ensures store.jobs == ExpectedEntries(optimize, submit, cv, queue.jobs)
    ensures store == Save(store)
    ensures store.summary.Some? && store.summary.value.totalJobs == |queue.jobs|
    ensures store.summary.value.submitted == |results|
    ensures store.summary.value.failed == |queue.jobs| - |results|
    ensures results == ExpectedResults(optimize, submit, cv, queue.jobs)
  {
    var ledger := NewStore(cv.fullName);
    results := [];
    drained := queue;
    var done := 0;
    while !IsEmpty(drained)
      invariant 0 <= done <= |queue.jobs|
      invariant drained.jobs == queue.jobs[done..]
      invariant ledger.candidate == cv.fullName && ledger.summary.None?
      invariant ledger.jobs == ExpectedEntries(optimize, submit, cv, queue.jobs[..done])
      invariant results == ExpectedResults(optimize, submit, cv, queue.jobs[..done])
      decreases |drained.jobs|
    {
      var popped := PopNext(drained);
      var job := popped.value.0;
      drained := popped.value.1;
      assert queue.jobs[..done + 1][..done] == queue.jobs[..done];
      assert queue.jobs[..done + 1][done] == job;
      match optimize(done, cv, job) {
        case Raised(e) =>
          ledger := RecordFailure(ledger, job.company, job.title, e);
        case Produced(o) =>
          match submit(done, o) {
            case Some(e) =>
              ledger := RecordFailure(ledger, job.company, job.title, e);
            case None =>
              results := results + [o];
              ledger := RecordSuccess(ledger, job.company, job.title);
          }
      }
      done := done + 1;
    }
    assert queue.jobs[..done] == queue.jobs;
    store := Save(ledger);
    SubmittedMatchesResults(optimize, submit, cv, queue.jobs);
  }
}
