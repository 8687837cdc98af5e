/** The graph as `graph/workflow.py` wires it: schema extraction is the
    deterministic stub of `graph/nodes_submission.py`, whose resume field is
    hinted `optimized_cv.file`, an attribute the tailored CV does not have.
    That required field never resolves, so no form ever validates and no
    job is ever recorded as submitted. */
module WiredGraph {
  import opened Wrappers
  import opened Models
  import opened Text
  import TextFacts
  import opened Ledger
  import opened Validator
  import opened HintMapper
  import opened GraphState
  import opened Nodes
  import opened Workflow
  import opened Accounting

  /** The collaborators of the wired graph: any optimizer, the stub
      extraction. */
  function WiredEnv(optimize: Optimizer): (env: Env)
    ensures env.optimize == optimize
    ensures forall job, ats :: env.extract(job, ats) == StubExtract(job, ats)
  {
    Env(optimize, StubExtract)
  }

  /** The stub's resume hint resolves to nothing, with or without a tailored
      CV. */
  lemma ResumeHintUnresolved(cv: Option<CV>, optimized: Option<OptimizedCV>)
    ensures HintValue(cv, optimized, StubFields[2]) == None
  {
    if optimized.Some? {
      TextFacts.ShortNeverContains("file", OptimizedCvPrefix);
      ResolveOptimizedCvHint(cv, optimized.value, "file");
      assert OptimizedCvPrefix + "file" == "optimized_cv.file";
    }
  }

  /** A form with the stub's fields is never valid under the mapping its
      hints produce: its required resume field stays blank. */
  lemma StubFormInvalid(schema: FormSchema, cv: Option<CV>, optimized: Option<OptimizedCV>)
    requires schema.fields == StubFields
    ensures !IsFormValid(Some(schema), Some(HintMapping(cv, optimized, schema.fields)))
  {
    var m := HintMapping(cv, optimized, StubFields);
    assert StubFields[3].fieldId != StubFields[2].fieldId;
    assert LastWithId(StubFields, 2);
    HintMappingAt(cv, optimized, StubFields, 2);
    ResumeHintUnresolved(cv, optimized);
    assert Unfilled(StubFields[2], m);
  }

  /** Along a run of the wired graph: the schema in the loop is the stub's,
      and CONFIRM_SUBMIT and SUBMIT_SUCCESS are never reached. */
  predicate StubShape(c: Config) {
    && (c.node == MapFields || c.node == FillForm || c.node == ValidateForm ==>
          c.st.formSchema.Some? && c.st.formSchema.value.fields == StubFields)
    && c.node != ConfirmSubmit
    && c.node != SubmitSuccess
  }

  /** Every entry of `es` from index `from` on records a failure. */
  predicate FailedFrom(es: seq<Entry>, from: nat) {
    forall i :: from <= i < |es| ==> es[i].status == Failed
  }

  lemma FailedFromJoin(a: seq<Entry>, b: seq<Entry>, z: seq<Entry>)
    requires a <= b && b <= z && FailedFrom(b, |a|) && FailedFrom(z, |b|)
    ensures FailedFrom(z, |a|)
  {
    forall i | |a| <= i < |z| ensures z[i].status == Failed {
      if i < |b| {
        assert z[i] == b[i];
      }
    }
  }

  lemma StubStepExtract(optimize: Optimizer, c: Config, d: Config)
    requires Sound(c) && StubShape(c) && c.node == ExtractSchema
    requires Step(WiredEnv(optimize), c) == Next(d)
    ensures StubShape(d) && d.st.resultStore == c.st.resultStore
  {
  }

  lemma StubStepValidate(optimize: Optimizer, c: Config, d: Config)
    requires Sound(c) && StubShape(c) && c.node == ValidateForm
    requires Step(WiredEnv(optimize), c) == Next(d)
    ensures StubShape(d) && d.st.resultStore == c.st.resultStore
  {
    StubFormInvalid(c.st.formSchema.value, c.st.cv, c.st.currentOptimizedCv);
  }

  lemma StubStepRecords(optimize: Optimizer, c: Config, d: Config)
    requires Sound(c) && StubShape(c) && (c.node == OptFailed || c.node == SubmitFailed)
    requires Step(WiredEnv(optimize), c) == Next(d)
    ensures StubShape(d) && FailedFrom(LedgerOf(d.st), |LedgerOf(c.st)|)
  {
  }

  lemma StubStepOther(optimize: Optimizer, c: Config, d: Config)
    requires Sound(c) && StubShape(c)
    requires c.node in {PopJob, Optimize, SubmitStart, DetectAts, MapFields, FillForm}
    requires Step(WiredEnv(optimize), c) == Next(d)
    ensures StubShape(d) && d.st.resultStore == c.st.resultStore
  {
  }

  /** One step of the wired graph keeps the stub shape and appends only
      failures to the ledger. */
  lemma StubStep(optimize: Optimizer, c: Config, d: Config)
    requires Sound(c) && StubShape(c) && c.node != End
    requires Step(WiredEnv(optimize), c) == Next(d)
    ensures StubShape(d) && FailedFrom(LedgerOf(d.st), |LedgerOf(c.st)|)
  {
    match c.node {
      case ExtractSchema => StubStepExtract(optimize, c, d);
      case ValidateForm => StubStepValidate(optimize, c, d);
      case OptFailed => StubStepRecords(optimize, c, d);
      case SubmitFailed => StubStepRecords(optimize, c, d);
      case _ => StubStepOther(optimize, c, d);
    }
  }

  lemma {:induction false} StubRun(optimize: Optimizer, c: Config)
    requires Sound(c) && StubShape(c)
    ensures Run(WiredEnv(optimize), c).Finished? ==>
      FailedFrom(LedgerOf(Run(WiredEnv(optimize), c).st), |LedgerOf(c.st)|)
    decreases QueueLen(c.st), Phase(c.node), Budget(c), Pos(c.node)
  {
    var env := WiredEnv(optimize);
    if c.node != End {
      StepProgress(env, c);
      if Step(env, c).Next? {
        var d := Step(env, c).next;
        StepSound(env, c, d);
        StubStep(optimize, c, d);
        StubRun(optimize, d);
        RunSound(env, d);
        if Run(env, c).Finished? {
          FailedFromJoin(LedgerOf(c.st), LedgerOf(d.st), LedgerOf(Run(env, d).st));
        }
      }
    }
  }

  /** The wired graph never submits: a finished run from a state holding a
      ledger appends only failure entries, one per queued job. */
  lemma WiredGraphNeverSubmits(optimize: Optimizer, st: State)
    requires st.resultStore.Some?
    ensures RunGraph(WiredEnv(optimize), st).Finished? ==>
      FailedFrom(LedgerOf(RunGraph(WiredEnv(optimize), st).st), |LedgerOf(st)|)
  {
    StubRun(optimize, Config(PopJob, st, 0));
  }
}
