/** What whole runs of the state machine of `graph/workflow.py` record:
    each queued job gets exactly one ledger entry, in queue order; a run
    raises only where schema extraction fails; and once at least one
    submission attempt is allowed, confirmation always succeeds. */
module Accounting {
  import opened Wrappers
  import opened Models
  import opened Queue
  import opened Ledger
  import opened Validator
  import opened HintMapper
  import opened GraphState
  import opened Nodes
  import opened Workflow

  function Queued(st: State): seq<Job> {
    if st.jobQueue.None? then [] else st.jobQueue.value.jobs
  }

  function LedgerOf(st: State): seq<Entry> {
    if st.resultStore.None? then [] else st.resultStore.value.jobs
  }

  /** The jobs a configuration still owes the ledger: the current job while
      its pass is under way, then the queue in order. */
  function Owed(c: Config): seq<Job> {
    (if c.node == PopJob || c.node == End || c.st.currentJob.None? then [] else [c.st.currentJob.value])
    + Queued(c.st)
  }

  /** What identifies a job in the ledger: its company and title. */
  datatype Key = Key(company: string, title: string)

  function JobKeys(js: seq<Job>): (r: seq<Key>)
    ensures |r| == |js|
    ensures forall i :: 0 <= i < |js| ==> r[i] == Key(js[i].company, js[i].title)
  {
    seq(|js|, i requires 0 <= i < |js| => Key(js[i].company, js[i].title))
  }

  function EntryKeys(es: seq<Entry>): (r: seq<Key>)
    ensures |r| == |es|
    ensures forall i :: 0 <= i < |es| ==> r[i] == Key(es[i].company, es[i].title)
  {
    seq(|es|, i requires 0 <= i < |es| => Key(es[i].company, es[i].title))
  }

  /** Recording the current job moves its key from the owed jobs to the
      ledger. */
  lemma KeysShift(es: seq<Entry>, e: Entry, job: Job, q: seq<Job>)
    requires e.company == job.company && e.title == job.title
    ensures EntryKeys(es + [e]) + JobKeys(q) == EntryKeys(es) + JobKeys([job] + q)
  {
    var lhs := EntryKeys(es + [e]) + JobKeys(q);
    var rhs := EntryKeys(es) + JobKeys([job] + q);
    assert |lhs| == |rhs|;
    forall i | 0 <= i < |lhs| ensures lhs[i] == rhs[i] {
      if i < |es| {
      } else if i == |es| {
      } else {
        assert ([job] + q)[i - |es|] == q[i - |es| - 1];
      }
    }
  }

  /** Nodes of the MAP_FIELDS, FILL_FORM, VALIDATE_FORM loop and
      CONFIRM_SUBMIT, where the attempt counter is within its budget. */
  predicate Counted(n: Node) {
    n == MapFields || n == FillForm || n == ValidateForm || n == ConfirmSubmit
  }

  /** What holds at every configuration a run from POP_JOB with a ledger
      reaches: a job while a pass is under way, the ledger present, an empty
      queue at END, the attempt counter reset at the start of submission and
      kept under its budget in the loop, and the schema and the hint mapping
      in place once extracted and computed. */
  predicate Sound(c: Config) {
    && Live(c)
    && c.st.resultStore.Some?
    && (c.node == End ==> Queued(c.st) == [])
    && (c.node == DetectAts || c.node == ExtractSchema ==> c.st.submissionAttempts == 0)
    && (Counted(c.node) ==>
          0 <= c.st.submissionAttempts
          && (c.st.submissionAttempts == 0 || c.st.submissionAttempts < c.st.maxSubmissionAttempts))
    && (c.node == MapFields || c.node == FillForm || c.node == ValidateForm ==> c.st.formSchema.Some?)
    && (c.node == FillForm || c.node == ValidateForm ==>
          c.st.fieldMapping == Some(HintMapping(c.st.cv, c.st.currentOptimizedCv, c.st.formSchema.value.fields)))
  }

  /** From `c` to `d` the ledger only grows, every job leaving the owed
      list enters the ledger, in order, and the submission budget stays. */
  predicate Balanced(c: Config, d: Config) {
    && d.st.maxSubmissionAttempts == c.st.maxSubmissionAttempts
    && LedgerOf(c.st) <= LedgerOf(d.st)
    && EntryKeys(LedgerOf(d.st)) + JobKeys(Owed(d)) == EntryKeys(LedgerOf(c.st)) + JobKeys(Owed(c))
  }

  lemma StepSoundPopJob(env: Env, c: Config, d: Config)
    requires Sound(c) && c.node == PopJob && Step(env, c) == Next(d)
    ensures Sound(d) && Balanced(c, d)
  {
  }

  lemma StepSoundOptimize(env: Env, c: Config, d: Config)
    requires Sound(c) && c.node == Optimize && Step(env, c) == Next(d)
    ensures Sound(d) && Balanced(c, d)
  {
  }

  lemma StepSoundOptFailed(env: Env, c: Config, d: Config)
    requires Sound(c) && c.node == OptFailed && Step(env, c) == Next(d)
    ensures Sound(d) && Balanced(c, d)
  {
    KeysShift(LedgerOf(c.st), OptFailedEntry(c.st.currentJob.value), c.st.currentJob.value, Queued(c.st));
  }

  lemma StepSoundPrefix(env: Env, c: Config, d: Config)
    requires Sound(c) && c.node in {SubmitStart, DetectAts, ExtractSchema} && Step(env, c) == Next(d)
    ensures Sound(d) && Balanced(c, d)
  {
  }

  lemma StepSoundMapFill(env: Env, c: Config, d: Config)
    requires Sound(c) && c.node in {MapFields, FillForm} && Step(env, c) == Next(d)
    ensures Sound(d) && Balanced(c, d)
  {
  }

  lemma StepSoundValidate(env: Env, c: Config, d: Config)
    requires Sound(c) && c.node == ValidateForm && Step(env, c) == Next(d)
    ensures Sound(d) && Balanced(c, d)
  {
  }

  lemma StepSoundConfirm(env: Env, c: Config, d: Config)
    requires Sound(c) && c.node == ConfirmSubmit && Step(env, c) == Next(d)
    ensures Sound(d) && Balanced(c, d)
  {
  }

  lemma StepSoundSucceeded(env: Env, c: Config, d: Config)
    requires Sound(c) && c.node == SubmitSuccess && Step(env, c) == Next(d)
    ensures Sound(d) && Balanced(c, d)
  {
    var job := c.st.currentJob.value;
    KeysShift(LedgerOf(c.st), Entry(job.company, job.title, Submitted, None, None), job, Queued(c.st));
  }

  lemma StepSoundFailed(env: Env, c: Config, d: Config)
    requires Sound(c) && c.node == SubmitFailed && Step(env, c) == Next(d)
    ensures Sound(d) && Balanced(c, d)
  {
    var job := c.st.currentJob.value;
    KeysShift(LedgerOf(c.st), Entry(job.company, job.title, Failed, Some(SubmissionFailedReason), Some("str")),
              job, Queued(c.st));
  }

  /** One step from a sound configuration before END keeps it sound and
      the ledger balanced. */
  lemma StepSound(env: Env, c: Config, d: Config)
    requires Sound(c) && c.node != End && Step(env, c) == Next(d)
    ensures Sound(d) && Balanced(c, d)
  {
    match c.node {
      case PopJob => StepSoundPopJob(env, c, d);
      case Optimize => StepSoundOptimize(env, c, d);
      case OptFailed => StepSoundOptFailed(env, c, d);
      case SubmitStart => StepSoundPrefix(env, c, d);
      case DetectAts => StepSoundPrefix(env, c, d);
      case ExtractSchema => StepSoundPrefix(env, c, d);
      case MapFields => StepSoundMapFill(env, c, d);
      case FillForm => StepSoundMapFill(env, c, d);
      case ValidateForm => StepSoundValidate(env, c, d);
      case ConfirmSubmit => StepSoundConfirm(env, c, d);
      case SubmitSuccess => StepSoundSucceeded(env, c, d);
      case SubmitFailed => StepSoundFailed(env, c, d);
    }
  }

  /** From a sound configuration, only EXTRACT_SCHEMA can raise: every
      other node finds the job, schema, mapping and ledger it needs. */
  lemma OnlyExtractionRaises(env: Env, c: Config)
    requires Sound(c) && c.node != ExtractSchema
    ensures Step(env, c).Next?
  {
  }

  /** A whole run from a sound configuration: when it finishes, the ledger
      has grown by one entry per owed job, in order; when it raises, it was
      at EXTRACT_SCHEMA. */
  lemma {:induction false} RunSound(env: Env, c: Config)
    requires Sound(c)
    ensures Run(env, c).Finished? ==>
      && LedgerOf(c.st) <= LedgerOf(Run(env, c).st)
      && EntryKeys(LedgerOf(Run(env, c).st)) == EntryKeys(LedgerOf(c.st)) + JobKeys(Owed(c))
    ensures Run(env, c).Crashed? ==> Run(env, c).node == ExtractSchema
    decreases QueueLen(c.st), Phase(c.node), Budget(c), Pos(c.node)
  {
    if c.node == End {
      assert Owed(c) == [];
    } else {
      StepProgress(env, c);
      match Step(env, c) {
        case Crash(n, e) =>
          if c.node != ExtractSchema {
            OnlyExtractionRaises(env, c);
          }
        case Next(d) =>
          StepSound(env, c, d);
          RunSound(env, d);
      }
    }
  }

  /** `after` is `before` followed by one entry per job of `q`, carrying
      that job's company and title, in order. */
  predicate AppendsOnePerJob(before: seq<Entry>, after: seq<Entry>, q: seq<Job>) {
    && |after| == |before| + |q|
    && after[..|before|] == before
    && forall i :: 0 <= i < |q| ==>
         after[|before| + i].company == q[i].company && after[|before| + i].title == q[i].title
  }

  /** Exactly one ledger entry per queued job: a finished run of the graph
      from a state holding a ledger leaves the earlier entries in place and
      appends one entry per queued job, in queue order. A run that raises
      does so at EXTRACT_SCHEMA. */
  lemma EveryJobRecordedOnce(env: Env, st: State)
    requires st.resultStore.Some?
    ensures RunGraph(env, st).Finished? ==>
      AppendsOnePerJob(LedgerOf(st), LedgerOf(RunGraph(env, st).st), Queued(st))
    ensures RunGraph(env, st).Crashed? ==> RunGraph(env, st).node == ExtractSchema
  {
    var c := Config(PopJob, st, 0);
    RunSound(env, c);
    assert Owed(c) == Queued(st);
    if RunGraph(env, st).Finished? {
      AppendedInOrder(LedgerOf(st), LedgerOf(RunGraph(env, st).st), Queued(st));
    }
  }

  /** A ledger that grew by the keys of `q` holds one new entry per job of
      `q`, in order, after the old entries. */
  lemma AppendedInOrder(before: seq<Entry>, after: seq<Entry>, q: seq<Job>)
    requires before <= after && EntryKeys(after) == EntryKeys(before) + JobKeys(q)
    ensures AppendsOnePerJob(before, after, q)
  {
    assert |EntryKeys(after)| == |before| + |q|;
    forall i | 0 <= i < |q|
      ensures after[|before| + i].company == q[i].company && after[|before| + i].title == q[i].title
    {
      assert EntryKeys(after)[|before| + i] == JobKeys(q)[i];
    }
  }

  /** The invariant holds at every configuration a run reaches. */
  lemma {:induction false} SoundAlong(env: Env, c: Config, k: nat)
    requires Sound(c)
    ensures Iterate(env, c, k).Some? ==> Sound(Iterate(env, c, k).value)
    ensures Iterate(env, c, k).Some? ==>
      Iterate(env, c, k).value.st.maxSubmissionAttempts == c.st.maxSubmissionAttempts
    decreases k
  {
    if k > 0 && Step(env, c).Next? {
      var d := Step(env, c).next;
      if c.node == End {
        assert d == c;
      } else {
        StepSound(env, c, d);
      }
      SoundAlong(env, d, k - 1);
      IterateNext(env, c, d, k - 1);
    }
  }

  /** CONFIRM_SUBMIT from a sound configuration moves to SUBMIT_SUCCESS when
      at least one submission attempt is allowed. */
  lemma ConfirmSucceeds(env: Env, c: Config)
    requires Sound(c) && c.node == ConfirmSubmit && c.st.maxSubmissionAttempts >= 1
    ensures Step(env, c) == Next(Config(SubmitSuccess,
      c.st.(submissionAttempts := c.st.submissionAttempts + 1), c.calls))
  {
  }

  /** The CONFIRM_SUBMIT to SUBMIT_FAILED edge is dead: in any run of the
      graph with a ledger and a positive submission budget, every
      CONFIRM_SUBMIT is followed by SUBMIT_SUCCESS. */
  lemma ConfirmNeverFails(env: Env, st: State, k: nat)
    requires st.resultStore.Some? && st.maxSubmissionAttempts >= 1
    requires Iterate(env, Config(PopJob, st, 0), k).Some?
    requires Iterate(env, Config(PopJob, st, 0), k).value.node == ConfirmSubmit
    ensures Iterate(env, Config(PopJob, st, 0), k + 1).Some?
    ensures Iterate(env, Config(PopJob, st, 0), k + 1).value.node == SubmitSuccess
  {
    var c0 := Config(PopJob, st, 0);
    var c := Iterate(env, c0, k).value;
    SoundAlong(env, c0, k);
    ConfirmSucceeds(env, c);
    TraceAdd(Successor(env), c0, k, 1);
  }

  /** Outside the optimization loop the retry counter is zero: a success
      resets it, and so does OPT_FAILED. */
  predicate RetryReset(c: Config) {
    c.node != Optimize && c.node != OptFailed ==> c.st.retryCount == 0
  }

  lemma StepRetryOptimize(env: Env, c: Config, d: Config)
    requires Live(c) && c.node == Optimize && Step(env, c) == Next(d)
    ensures RetryReset(d)
  {
  }

  lemma StepRetryOther(env: Env, c: Config, d: Config)
    requires Live(c) && RetryReset(c) && c.node != Optimize && Step(env, c) == Next(d)
    ensures RetryReset(d)
  {
  }

  lemma {:induction false} RetryResetAlong(env: Env, c: Config, k: nat)
    requires Live(c) && RetryReset(c)
    ensures Iterate(env, c, k).Some? ==> Live(Iterate(env, c, k).value) && RetryReset(Iterate(env, c, k).value)
    decreases k
  {
    if k > 0 && Step(env, c).Next? {
      var d := Step(env, c).next;
      if c.node == End {
        assert d == c;
      } else {
        StepProgress(env, c);
        if c.node == Optimize {
          StepRetryOptimize(env, c, d);
        } else {
          StepRetryOther(env, c, d);
        }
      }
      RetryResetAlong(env, d, k - 1);
      IterateNext(env, c, d, k - 1);
    }
  }

  /** Every time a run of the graph from a state with a zero retry counter
      enters POP_JOB, the retry counter is zero. */
  lemma RetryZeroAtPopJob(env: Env, st: State, k: nat)
    requires st.retryCount == 0
    requires Iterate(env, Config(PopJob, st, 0), k).Some?
    requires Iterate(env, Config(PopJob, st, 0), k).value.node == PopJob
    ensures Iterate(env, Config(PopJob, st, 0), k).value.st.retryCount == 0
  {
    RetryResetAlong(env, Config(PopJob, st, 0), k);
  }
}
