/** The application state machine of `graph/workflow.py`: the node names,
    the routing after each node, a step function, and a run loop proved to
    terminate. The graph runtime itself is replaced by this explicit loop. */
module Workflow {
  import opened Wrappers
  import opened Models
  import opened Queue
  import opened Ledger
  import opened Validator
  import opened HintMapper
  import opened GraphState
  import opened Nodes

  datatype Node =
    | PopJob | Optimize | OptFailed
    | SubmitStart | DetectAts | ExtractSchema | MapFields | FillForm | ValidateForm
    | ConfirmSubmit | SubmitSuccess | SubmitFailed
    | End

  /** The external collaborators of a run: the CV optimizer and the schema
      extraction. */
  datatype Env = Env(optimize: Optimizer, extract: Extractor)

  /** A point of a run: the node about to execute, the state, and the
      number of optimizer calls made so far. */
  datatype Config = Config(node: Node, st: State, calls: nat)

  /** The edge taken after `node` has executed and produced `st`. */
  function Route(node: Node, st: State): (next: Node)
    ensures next == End <==> node == End || (node == PopJob && st.currentJob.None?)
    ensures node == PopJob && st.currentJob.Some? ==> next == Optimize
    ensures node == Optimize ==>
      next == (if st.currentOptimizedCv.Some? then SubmitStart
               else if st.retryCount < st.maxRetries then Optimize else OptFailed)
    ensures node in {OptFailed, SubmitSuccess, SubmitFailed} ==> next == PopJob
    ensures node == ConfirmSubmit ==>
      (next == SubmitSuccess <==> st.submissionAttempts <= st.maxSubmissionAttempts)
    ensures next == PopJob ==> node in {OptFailed, SubmitSuccess, SubmitFailed}
  {
    match node
    case PopJob => if st.currentJob.None? then End else Optimize
    case Optimize =>
      if st.currentOptimizedCv.Some? then SubmitStart
      else if st.retryCount < st.maxRetries then Optimize
      else OptFailed
    case OptFailed => PopJob
    case SubmitStart => DetectAts
    case DetectAts => ExtractSchema
    case ExtractSchema => MapFields
    case MapFields => FillForm
    case FillForm => ValidateForm
    case ValidateForm =>
      if IsFormValid(st.formSchema, st.fieldMapping) then ConfirmSubmit
      else if st.submissionAttempts < st.maxSubmissionAttempts then MapFields
      else SubmitFailed
    case ConfirmSubmit =>
      if st.submissionAttempts <= st.maxSubmissionAttempts then SubmitSuccess else SubmitFailed
    case SubmitSuccess => PopJob
    case SubmitFailed => PopJob
    case End => End
  }

  /** Runs the body of the node of `c`: the new state and call count, or
      the error the node raises. */
  function Exec(env: Env, c: Config): Result<(State, nat), string> {
    var st := c.st;
    match c.node
    case PopJob => Success((PopJobNode(st), c.calls))
    case Optimize =>
      Success((OptimizeCvNode(st, env.optimize, c.calls),
               if CallsOptimizer(st) then c.calls + 1 else c.calls))
    case OptFailed => Success((OptimizationFailedNode(st), c.calls))
    case SubmitStart =>
      var r :- SubmitStartNode(st);
      Success((r, c.calls))
    case DetectAts => Success((DetectAtsNode(st), c.calls))
    case ExtractSchema =>
      var r :- ExtractSchemaNode(st, env.extract);
      Success((r, c.calls))
    case MapFields =>
      var r :- MapFieldsNode(st);
      Success((r, c.calls))
    case FillForm => Success((FillFormNode(st), c.calls))
    case ValidateForm =>
      var r :- ValidateFormNode(st);
      Success((r, c.calls))
    case ConfirmSubmit => Success((ConfirmSubmissionNode(st), c.calls))
    case SubmitSuccess =>
      var r :- SubmitSuccessNode(st);
      Success((r, c.calls))
    case SubmitFailed =>
      var r :- SubmitFailedNode(st);
      Success((r, c.calls))
    case End => Success((st, c.calls))
  }

  datatype StepResult = Next(next: Config) | Crash(node: Node, reason: string)

  /** One step: execute the node, then follow its edge. */
  function Step(env: Env, c: Config): StepResult {
    match Exec(env, c)
    case Failure(e) => Crash(c.node, e)
    case Success((st, calls)) => Next(Config(Route(c.node, st), st, calls))
  }

  /** Every node between POP_JOB and END works on a current job. */
  predicate Live(c: Config) {
    c.node != PopJob && c.node != End ==> c.st.currentJob.Some?
  }

  /** The termination measure, read lexicographically: jobs still queued,
      the phase of the per-job pass, the remaining retry budget of the
      current loop, and the position inside the MAP-FILL-VALIDATE loop. */
  function QueueLen(st: State): nat {
    if st.jobQueue.None? then 0 else |st.jobQueue.value.jobs|
  }

  function Phase(n: Node): nat {
    match n
    case End => 0
    case PopJob => 1
    case OptFailed => 2
    case SubmitSuccess => 2
    case SubmitFailed => 2
    case ConfirmSubmit => 3
    case MapFields => 4
    case FillForm => 4
    case ValidateForm => 4
    case ExtractSchema => 5
    case DetectAts => 6
    case SubmitStart => 7
    case Optimize => 8
  }

  function Clip(x: int): nat {
    if x < 0 then 0 else x
  }

  function Budget(c: Config): nat {
    match c.node
    case Optimize => Clip(c.st.maxRetries - c.st.retryCount)
    case MapFields => Clip(c.st.maxSubmissionAttempts - c.st.submissionAttempts)
    case FillForm => Clip(c.st.maxSubmissionAttempts - c.st.submissionAttempts)
    case ValidateForm => Clip(c.st.maxSubmissionAttempts - c.st.submissionAttempts)
    case _ => 0
  }

  function Pos(n: Node): nat {
    match n
    case MapFields => 2
    case FillForm => 1
    case _ => 0
  }

  /** `d` is below `c` in the lexicographic measure. */
  predicate Below(d: Config, c: Config) {
    || QueueLen(d.st) < QueueLen(c.st)
    || (QueueLen(d.st) == QueueLen(c.st) && Phase(d.node) < Phase(c.node))
    || (QueueLen(d.st) == QueueLen(c.st) && Phase(d.node) == Phase(c.node) && Budget(d) < Budget(c))
    || (QueueLen(d.st) == QueueLen(c.st) && Phase(d.node) == Phase(c.node) && Budget(d) == Budget(c)
        && Pos(d.node) < Pos(c.node))
  }

  /** A step from a live configuration before END leads to a live
      configuration strictly below it: every per-job pass returns to POP_JOB
      with one job fewer queued, and each retry loop spends its budget. */
  lemma StepProgress(env: Env, c: Config)
    requires Live(c) && c.node != End
    ensures Step(env, c).Next? ==> Live(Step(env, c).next) && Below(Step(env, c).next, c)
  {
    if Step(env, c).Next? {
      var d := Step(env, c).next;
      match c.node {
        case PopJob =>
          if c.st.jobQueue.Some? && !IsEmpty(c.st.jobQueue.value) {
            assert QueueLen(d.st) < QueueLen(c.st);
          }
        case Optimize =>
        case ValidateForm =>
        case _ =>
      }
    }
  }

  /** How a run ends: at END with the final state and call count, or with
      the error a node raised. */
  datatype RunOutcome = Finished(st: State, calls: nat) | Crashed(node: Node, reason: string)

  /** Runs the machine from `c` until END or an error. */
  function Run(env: Env, c: Config): RunOutcome
    requires Live(c)
    decreases QueueLen(c.st), Phase(c.node), Budget(c), Pos(c.node)
  {
    if c.node == End then Finished(c.st, c.calls)
    else
      StepProgress(env, c);
      match Step(env, c)
      case Crash(n, e) => Crashed(n, e)
      case Next(d) => Run(env, d)
  }

  /** The compiled graph's entry point: start at POP_JOB. */
  function RunGraph(env: Env, st: State): RunOutcome {
    Run(env, Config(PopJob, st, 0))
  }

  /** `n` steps of a partial successor function: the configuration
      reached, or `None` when a step had no successor on the way. */
  function Trace(next: Config -> Option<Config>, c: Config, n: nat): Option<Config>
    decreases n
  {
    if n == 0 then Some(c)
    else match next(c)
      case None => None
      case Some(d) => Trace(next, d, n - 1)
  }

  lemma {:induction false} TraceAdd(next: Config -> Option<Config>, c: Config, a: nat, b: nat)
    ensures Trace(next, c, a + b) ==
      (match Trace(next, c, a)
       case None => None
       case Some(d) => Trace(next, d, b))
    decreases a
  {
    if a > 0 {
      match next(c)
      case None =>
      case Some(d) => TraceAdd(next, d, a - 1, b);
    }
  }

  /** The machine's successor: the next configuration, or `None` when the
      node raised. END steps to itself. */
  function Successor(env: Env): Config -> Option<Config> {
    c => if Step(env, c).Next? then Some(Step(env, c).next) else None
  }

  /** The configuration after `n` steps of the machine. */
  function Iterate(env: Env, c: Config, n: nat): Option<Config> {
    Trace(Successor(env), c, n)
  }

  lemma IterateNext(env: Env, c: Config, d: Config, n: nat)
    requires Step(env, c) == Next(d)
    ensures Iterate(env, c, n + 1) == Iterate(env, d, n)
  {
  }

  /** The optimizer, when it is called for this job, raises every time. */
  ghost predicate OptimizationNeverSucceeds(env: Env, st: State) {
    CallsOptimizer(st) ==>
      forall i: nat :: env.optimize(i, st.cv.value, st.currentJob.value).Raised?
  }

  /** How many times a bounded retry node (OPTIMIZE, or VALIDATE_FORM)
      runs from count `r` under budget `m` when it never succeeds: until the
      count reaches the budget, and at least once, since both routes test
      the count only after the node has run. */
  function Rounds(r: int, m: int): (n: nat)
    ensures n >= 1 && (n == 1 || r + n == m)
  {
    if m - r > 1 then m - r else 1
  }

  /** Bounded optimization retries: entered with retry count `r`, OPTIMIZE
      executes exactly `Rounds(r, max_retries)` times in a row (so
      exactly `max_retries` times from 0 when the budget is positive) and
      then the run moves to OPT_FAILED, each execution having counted one
      retry and called the optimizer when it could. */
  lemma {:induction false} OptimizeRetriesExactly(env: Env, c: Config)
    requires c.node == Optimize && c.st.currentJob.Some?
    requires OptimizationNeverSucceeds(env, c.st)
    ensures var n := Rounds(c.st.retryCount, c.st.maxRetries);
      && (forall k :: 0 <= k < n ==> Iterate(env, c, k).Some? && Iterate(env, c, k).value.node == Optimize)
      && Iterate(env, c, n) == Some(Config(OptFailed,
           c.st.(currentOptimizedCv := None, retryCount := c.st.retryCount + n),
           c.calls + (if CallsOptimizer(c.st) then n else 0)))
    decreases Rounds(c.st.retryCount, c.st.maxRetries)
  {
    var n := Rounds(c.st.retryCount, c.st.maxRetries);
    var st1 := c.st.(currentOptimizedCv := None, retryCount := c.st.retryCount + 1);
    var calls1 := c.calls + (if CallsOptimizer(c.st) then 1 else 0);
    if CallsOptimizer(c.st) {
      assert env.optimize(c.calls, c.st.cv.value, c.st.currentJob.value).Raised?;
    }
    assert OptimizeCvNode(c.st, env.optimize, c.calls) == st1;
    if n == 1 {
      assert Step(env, c) == Next(Config(OptFailed, st1, calls1));
      IterateNext(env, c, Config(OptFailed, st1, calls1), 0);
    } else {
      var d := Config(Optimize, st1, calls1);
      assert Step(env, c) == Next(d);
      assert CallsOptimizer(st1) == CallsOptimizer(c.st);
      OptimizeRetriesExactly(env, d);
      assert Rounds(st1.retryCount, st1.maxRetries) == n - 1;
      forall k | 0 < k < n
        ensures Iterate(env, c, k).Some? && Iterate(env, c, k).value.node == Optimize
      {
        IterateNext(env, c, d, k - 1);
      }
      IterateNext(env, c, d, n - 1);
    }
  }

  /** The node the MAP_FIELDS, FILL_FORM, VALIDATE_FORM loop is at `k`
      steps after a VALIDATE_FORM that sent it round again. */
  function LoopNode(k: nat): (n: Node)
    ensures n == ValidateForm || n == MapFields || n == FillForm
  {
    if k == 0 then ValidateForm
    else if k == 1 then MapFields
    else if k == 2 then FillForm
    else LoopNode(k - 3)
  }

  /** The loop is at VALIDATE_FORM exactly every third step. */
  lemma {:induction false} LoopNodeValidates(k: nat)
    ensures LoopNode(k) == ValidateForm <==> k % 3 == 0
    decreases k
  {
    if k >= 3 {
      LoopNodeValidates(k - 3);
      assert (k - 3) % 3 == k % 3;
    }
  }

  /** The VALIDATE_FORM configuration of `d` with attempt count `a`. */
  function ValidateAt(d: Config, a: int): (v: Config)
    ensures v.node == ValidateForm && v.st.submissionAttempts == a
    ensures v == Config(ValidateForm, d.st.(submissionAttempts := a), d.calls)
  {
    Config(ValidateForm, d.st.(submissionAttempts := a), d.calls)
  }

  // The loop lemmas below hold for any successor function with the shape
  // `FailsRound` describes; `InvalidFormNeverValidates` shows the machine
  // has that shape.

  /** Steps 1 to `3 * r - 3` from `d` follow the loop. */
  predicate FollowsLoop(next: Config -> Option<Config>, d: Config, r: nat) {
    forall k: nat :: 1 <= k < 3 * r - 2 ==>
      Trace(next, d, k).Some? && Trace(next, d, k).value.node == LoopNode(k)
  }

  /** One unsuccessful round from VALIDATE_FORM configuration `v`: an
      attempt is counted and, while attempts remain, MAP_FIELDS and
      FILL_FORM lead back to VALIDATE_FORM; otherwise the run moves to
      SUBMIT_FAILED. */
  predicate FailsRound(next: Config -> Option<Config>, v: Config) {
    var st1 := v.st.(submissionAttempts := v.st.submissionAttempts + 1);
    && (st1.submissionAttempts < st1.maxSubmissionAttempts ==>
          && Trace(next, v, 1) == Some(Config(MapFields, st1, v.calls))
          && Trace(next, v, 2) == Some(Config(FillForm, st1, v.calls))
          && Trace(next, v, 3) == Some(Config(ValidateForm, st1, v.calls)))
    && (st1.submissionAttempts >= st1.maxSubmissionAttempts ==>
          Trace(next, v, 1) == Some(Config(SubmitFailed, st1, v.calls)))
  }

  /** Whatever the attempt count, the form of `b` fails a round. */
  ghost predicate NeverValidates(next: Config -> Option<Config>, b: Config) {
    forall a :: FailsRound(next, ValidateAt(b, a))
  }

  lemma TraceThreeThen(next: Config -> Option<Config>, d: Config, d3: Config, n: nat, e: Config)
    requires Trace(next, d, 3) == Some(d3) && Trace(next, d3, n) == Some(e)
    ensures Trace(next, d, n + 3) == Some(e)
  {
    TraceAdd(next, d, 3, n);
  }

  lemma FollowsLoopShiftAt(next: Config -> Option<Config>, d: Config, d3: Config, r: nat, k: nat)
    requires r >= 2 && Trace(next, d, 3) == Some(d3) && d3.node == ValidateForm
    requires Trace(next, d, 1).Some? && Trace(next, d, 1).value.node == MapFields
    requires Trace(next, d, 2).Some? && Trace(next, d, 2).value.node == FillForm
    requires FollowsLoop(next, d3, r - 1)
    requires 1 <= k < 3 * r - 2
    ensures Trace(next, d, k).Some? && Trace(next, d, k).value.node == LoopNode(k)
  {
    if k >= 3 {
      TraceAdd(next, d, 3, k - 3);
      if k == 3 {
        assert Trace(next, d3, 0) == Some(d3);
      } else {
        assert 1 <= k - 3 < 3 * (r - 1) - 2;
      }
    }
  }

  lemma FollowsLoopShift(next: Config -> Option<Config>, d: Config, d3: Config, r: nat)
    requires r >= 2 && Trace(next, d, 3) == Some(d3) && d3.node == ValidateForm
    requires Trace(next, d, 1).Some? && Trace(next, d, 1).value.node == MapFields
    requires Trace(next, d, 2).Some? && Trace(next, d, 2).value.node == FillForm
    requires FollowsLoop(next, d3, r - 1)
    ensures FollowsLoop(next, d, r)
  {
    forall k: nat | 1 <= k < 3 * r - 2
      ensures Trace(next, d, k).Some? && Trace(next, d, k).value.node == LoopNode(k)
    {
      FollowsLoopShiftAt(next, d, d3, r, k);
    }
  }

  /** The loop on a form that never validates, entered at VALIDATE_FORM
      with attempt count `a`: after `r = Rounds` rounds the run is
      at SUBMIT_FAILED with `r` more attempts counted. */
  lemma {:induction false} ValidateLoopEnds(next: Config -> Option<Config>, b: Config, a: int, r: nat)
    requires NeverValidates(next, b)
    requires r == Rounds(a, b.st.maxSubmissionAttempts)
    ensures Trace(next, ValidateAt(b, a), 3 * r - 2)
         == Some(Config(SubmitFailed, b.st.(submissionAttempts := a + r), b.calls))
    decreases r
  {
    var d := ValidateAt(b, a);
    assert FailsRound(next, d);
    if r > 1 {
      ValidateLoopEnds(next, b, a + 1, r - 1);
      assert a + 1 + (r - 1) == a + r;
      TraceThreeThen(next, d, ValidateAt(b, a + 1), 3 * (r - 1) - 2,
                     Config(SubmitFailed, b.st.(submissionAttempts := a + r), b.calls));
      assert 3 * (r - 1) - 2 + 3 == 3 * r - 2;
    }
  }

  /** Until then the run follows the loop. */
  lemma {:induction false} ValidateLoopFollows(next: Config -> Option<Config>, b: Config, a: int, r: nat)
    requires NeverValidates(next, b)
    requires r == Rounds(a, b.st.maxSubmissionAttempts)
    ensures FollowsLoop(next, ValidateAt(b, a), r)
    decreases r
  {
    var d := ValidateAt(b, a);
    assert FailsRound(next, d);
    if r > 1 {
      ValidateLoopFollows(next, b, a + 1, r - 1);
      FollowsLoopShift(next, d, ValidateAt(b, a + 1), r);
    }
  }

  /** The two loop facts from a VALIDATE_FORM configuration `v` itself. */
  lemma ValidateLoopEndsFrom(next: Config -> Option<Config>, v: Config, m: nat)
    requires v.node == ValidateForm && NeverValidates(next, v)
    requires m == Rounds(v.st.submissionAttempts, v.st.maxSubmissionAttempts)
    ensures Trace(next, v, 3 * m - 2)
         == Some(Config(SubmitFailed, v.st.(submissionAttempts := v.st.submissionAttempts + m), v.calls))
  {
    assert ValidateAt(v, v.st.submissionAttempts) == v;
    ValidateLoopEnds(next, v, v.st.submissionAttempts, m);
  }

  lemma ValidateLoopFollowsFrom(next: Config -> Option<Config>, v: Config, m: nat)
    requires v.node == ValidateForm && NeverValidates(next, v)
    requires m == Rounds(v.st.submissionAttempts, v.st.maxSubmissionAttempts)
    ensures FollowsLoop(next, v, m)
  {
    assert ValidateAt(v, v.st.submissionAttempts) == v;
    ValidateLoopFollows(next, v, v.st.submissionAttempts, m);
  }

  // One step of each submission node, stated once so that the loop proofs
  // below need not unfold the step function.

  lemma StepSubmitStart(env: Env, c: Config)
    requires c.node == SubmitStart && c.st.currentJob.Some?
    ensures Step(env, c) == Next(Config(DetectAts, c.st.(submissionAttempts := 0), c.calls))
  {
  }

  lemma StepDetectAts(env: Env, c: Config)
    requires c.node == DetectAts
    ensures Step(env, c) == Next(Config(ExtractSchema, c.st.(atsType := Some(DetectedAts)), c.calls))
  {
  }

  lemma StepExtractSchema(env: Env, c: Config)
    requires c.node == ExtractSchema && c.st.currentJob.Some?
    ensures env.extract(c.st.currentJob.value, c.st.atsType).Success? ==>
      Step(env, c) == Next(Config(MapFields,
        c.st.(formSchema := Some(env.extract(c.st.currentJob.value, c.st.atsType).value)), c.calls))
    ensures env.extract(c.st.currentJob.value, c.st.atsType).Failure? ==>
      Step(env, c) == Crash(ExtractSchema, env.extract(c.st.currentJob.value, c.st.atsType).error)
  {
  }

  lemma StepMapFields(env: Env, c: Config)
    requires c.node == MapFields && c.st.formSchema.Some?
    ensures Step(env, c) == Next(Config(FillForm,
      c.st.(fieldMapping := Some(HintMapping(c.st.cv, c.st.currentOptimizedCv, c.st.formSchema.value.fields))),
      c.calls))
  {
  }

  lemma StepFillForm(env: Env, c: Config)
    requires c.node == FillForm
    ensures Step(env, c) == Next(Config(ValidateForm, c.st, c.calls))
  {
  }

  lemma StepValidateForm(env: Env, c: Config)
    requires c.node == ValidateForm && c.st.formSchema.Some? && c.st.fieldMapping.Some?
    ensures IsFormValid(c.st.formSchema, c.st.fieldMapping) ==>
      Step(env, c) == Next(Config(ConfirmSubmit, c.st, c.calls))
    ensures !IsFormValid(c.st.formSchema, c.st.fieldMapping) ==>
      var a := c.st.submissionAttempts + 1;
      Step(env, c) == Next(Config(if a < c.st.maxSubmissionAttempts then MapFields else SubmitFailed,
                                  c.st.(submissionAttempts := a), c.calls))
  {
  }

  /** A run through the configurations `cs`, one step each. */
  lemma {:induction false} TraceChain(next: Config -> Option<Config>, c: Config, cs: seq<Config>)
    requires |cs| > 0 ==> next(c) == Some(cs[0])
    requires forall i :: 0 <= i < |cs| - 1 ==> next(cs[i]) == Some(cs[i + 1])
    ensures forall k :: 0 <= k <= |cs| ==> Trace(next, c, k) == Some(([c] + cs)[k])
    decreases |cs|
  {
    if |cs| > 0 {
      TraceChain(next, cs[0], cs[1..]);
      forall k | 0 <= k <= |cs|
        ensures Trace(next, c, k) == Some(([c] + cs)[k])
      {
        if k > 0 {
          assert ([c] + cs)[k] == ([cs[0]] + cs[1..])[k - 1];
        }
      }
    }
  }

  lemma SuccessorOf(env: Env, c: Config, d: Config)
    requires Step(env, c) == Next(d)
    ensures Successor(env)(c) == Some(d)
  {
  }

  /** A form that is invalid under the mapping its hints produce fails
      a round: MAP_FIELDS recomputes the same mapping. */
  lemma InvalidFormFailsRound(env: Env, v: Config)
    requires v.node == ValidateForm && v.st.formSchema.Some?
    requires v.st.fieldMapping == Some(HintMapping(v.st.cv, v.st.currentOptimizedCv, v.st.formSchema.value.fields))
    requires !IsFormValid(v.st.formSchema, v.st.fieldMapping)
    ensures FailsRound(Successor(env), v)
  {
    var st1 := v.st.(submissionAttempts := v.st.submissionAttempts + 1);
    StepValidateForm(env, v);
    if st1.submissionAttempts < st1.maxSubmissionAttempts {
      var d1 := Config(MapFields, st1, v.calls);
      var d2 := Config(FillForm, st1, v.calls);
      var d3 := Config(ValidateForm, st1, v.calls);
      StepMapFields(env, d1);
      StepFillForm(env, d2);
      SuccessorOf(env, v, d1);
      SuccessorOf(env, d1, d2);
      SuccessorOf(env, d2, d3);
      TraceChain(Successor(env), v, [d1, d2, d3]);
    } else {
      SuccessorOf(env, v, Config(SubmitFailed, st1, v.calls));
      TraceChain(Successor(env), v, [Config(SubmitFailed, st1, v.calls)]);
    }
  }

  /** Whatever the attempt count, such a form fails every round. */
  lemma InvalidFormNeverValidates(env: Env, d: Config)
    requires d.st.formSchema.Some?
    requires d.st.fieldMapping == Some(HintMapping(d.st.cv, d.st.currentOptimizedCv, d.st.formSchema.value.fields))
    requires !IsFormValid(d.st.formSchema, d.st.fieldMapping)
    ensures NeverValidates(Successor(env), d)
  {
    forall a ensures FailsRound(Successor(env), ValidateAt(d, a)) {
      InvalidFormFailsRound(env, ValidateAt(d, a));
    }
  }

  /** The first three steps: SUBMIT_START, DETECT_ATS, EXTRACT_SCHEMA. */
  lemma PrefixHead(env: Env, c: Config, schema: FormSchema) returns (c3: Config)
    requires c.node == SubmitStart && c.st.currentJob.Some?
    requires env.extract(c.st.currentJob.value, Some(DetectedAts)) == Success(schema)
    ensures Trace(Successor(env), c, 1).Some? && Trace(Successor(env), c, 1).value.node == DetectAts
    ensures Trace(Successor(env), c, 2).Some? && Trace(Successor(env), c, 2).value.node == ExtractSchema
    ensures Trace(Successor(env), c, 3) == Some(c3)
    ensures c3 == Config(MapFields, c.st.(submissionAttempts := 0, atsType := Some(DetectedAts),
                                          formSchema := Some(schema)), c.calls)
  {
    var s1 := c.st.(submissionAttempts := 0);
    var s2 := s1.(atsType := Some(DetectedAts));
    var c1 := Config(DetectAts, s1, c.calls);
    var c2 := Config(ExtractSchema, s2, c.calls);
    c3 := Config(MapFields, s2.(formSchema := Some(schema)), c.calls);
    StepSubmitStart(env, c);
    SuccessorOf(env, c, c1);
    StepDetectAts(env, c1);
    SuccessorOf(env, c1, c2);
    StepExtractSchema(env, c2);
    SuccessorOf(env, c2, c3);
    TraceChain(Successor(env), c, [c1, c2, c3]);
  }

  /** The next two: MAP_FIELDS and FILL_FORM. */
  lemma PrefixTail(env: Env, c: Config) returns (c2: Config)
    requires c.node == MapFields && c.st.formSchema.Some?
    ensures Trace(Successor(env), c, 1).Some? && Trace(Successor(env), c, 1).value.node == FillForm
    ensures Trace(Successor(env), c, 2) == Some(c2)
    ensures c2 == Config(ValidateForm, c.st.(fieldMapping :=
      Some(HintMapping(c.st.cv, c.st.currentOptimizedCv, c.st.formSchema.value.fields))), c.calls)
  {
    var c1 := Config(FillForm, c.st.(fieldMapping :=
      Some(HintMapping(c.st.cv, c.st.currentOptimizedCv, c.st.formSchema.value.fields))), c.calls);
    c2 := c1.(node := ValidateForm);
    StepMapFields(env, c);
    SuccessorOf(env, c, c1);
    StepFillForm(env, c1);
    SuccessorOf(env, c1, c2);
    TraceChain(Successor(env), c, [c1, c2]);
  }

  /** Bounded submission attempts, from the first VALIDATE_FORM: when the
      form is invalid under the mapping its hints produce, the run reaches
      SUBMIT_FAILED after `Rounds(a, max_submission_attempts)`
      rounds, with that many more attempts counted. */
  lemma InvalidFormLoopEnds(env: Env, v: Config, m: nat)
    requires v.node == ValidateForm && v.st.formSchema.Some?
    requires v.st.fieldMapping == Some(HintMapping(v.st.cv, v.st.currentOptimizedCv, v.st.formSchema.value.fields))
    requires !IsFormValid(v.st.formSchema, v.st.fieldMapping)
    requires m == Rounds(v.st.submissionAttempts, v.st.maxSubmissionAttempts)
    ensures Trace(Successor(env), v, 3 * m - 2)
         == Some(Config(SubmitFailed, v.st.(submissionAttempts := v.st.submissionAttempts + m), v.calls))
  {
    InvalidFormNeverValidates(env, v);
    ValidateLoopEndsFrom(Successor(env), v, m);
  }

  /** Until then it follows the MAP_FIELDS, FILL_FORM, VALIDATE_FORM loop. */
  lemma InvalidFormLoopFollows(env: Env, v: Config, m: nat)
    requires v.node == ValidateForm && v.st.formSchema.Some?
    requires v.st.fieldMapping == Some(HintMapping(v.st.cv, v.st.currentOptimizedCv, v.st.formSchema.value.fields))
    requires !IsFormValid(v.st.formSchema, v.st.fieldMapping)
    requires m == Rounds(v.st.submissionAttempts, v.st.maxSubmissionAttempts)
    ensures FollowsLoop(Successor(env), v, m)
  {
    InvalidFormNeverValidates(env, v);
    ValidateLoopFollowsFrom(Successor(env), v, m);
  }

  /** Five prefix steps, then a loop of `m` rounds ending at a failed
      submission with `m` attempts counted. */
  lemma PrefixThenLoop(next: Config -> Option<Config>, c: Config, c3: Config, c5: Config, m: nat, e: Config)
    requires m >= 1 && c5.node == ValidateForm && FollowsLoop(next, c5, m)
    requires Trace(next, c, 3) == Some(c3) && Trace(next, c3, 2) == Some(c5) && Trace(next, c5, 3 * m - 2) == Some(e)
    requires e.node == SubmitFailed && e.st.submissionAttempts == m
    ensures Trace(next, c, 5).Some? && Trace(next, c, 5).value.node == ValidateForm
    ensures FollowsLoop(next, Trace(next, c, 5).value, m)
    ensures Trace(next, c, 3 * m + 3).Some?
    ensures Trace(next, c, 3 * m + 3).value.node == SubmitFailed
    ensures Trace(next, c, 3 * m + 3).value.st.submissionAttempts == m
  {
    TraceAdd(next, c, 3, 2);
    TraceAdd(next, c, 5, 3 * m - 2);
    assert 5 + (3 * m - 2) == 3 * m + 3;
  }

  /** The same from SUBMIT_START: three steps reach MAP_FIELDS with the
      extracted schema, two more the first VALIDATE_FORM with attempts reset
      to zero, and then the loop runs `Rounds(0,
      max_submission_attempts)` rounds (exactly `max_submission_attempts`
      when that is positive) before SUBMIT_FAILED. */
  lemma ValidateRunsExactly(env: Env, c: Config, schema: FormSchema, m: nat)
    requires c.node == SubmitStart && c.st.currentJob.Some?
    requires env.extract(c.st.currentJob.value, Some(DetectedAts)) == Success(schema)
    requires !IsFormValid(Some(schema), Some(HintMapping(c.st.cv, c.st.currentOptimizedCv, schema.fields)))
    requires m == Rounds(0, c.st.maxSubmissionAttempts)
    ensures Trace(Successor(env), c, 5).Some? && Trace(Successor(env), c, 5).value.node == ValidateForm
    ensures FollowsLoop(Successor(env), Trace(Successor(env), c, 5).value, m)
    ensures Trace(Successor(env), c, 3 * m + 3).Some?
    ensures Trace(Successor(env), c, 3 * m + 3).value.node == SubmitFailed
    ensures Trace(Successor(env), c, 3 * m + 3).value.st.submissionAttempts == m
  {
    var c3 := PrefixHead(env, c, schema);
    var c5 := PrefixTail(env, c3);
    InvalidFormLoopEnds(env, c5, m);
    InvalidFormLoopFollows(env, c5, m);
    var e := Config(SubmitFailed, c5.st.(submissionAttempts := m), c5.calls);
    PrefixThenLoop(Successor(env), c, c3, c5, m, e);
  }
}
