/** The ATS-classifying SUBMIT_START node
    (`graph/node_submission/submit_start_node.py`), which the graph does not
    wire: it classifies the job's apply URL and creates the browser executor
    at most once per state. */
module AtsStart {
  import opened Wrappers
  import opened Models
  import opened Text
  import TextFacts
  import opened GraphState

  const Greenhouse := "greenhouse"
  const Unsupported := "unsupported"
  const GreenhouseHost := "greenhouse.io"

  /** The ATS behind an apply URL, judged on the lower-cased URL. */
  function ClassifyAts(url: string): (r: string)
    ensures r == Greenhouse <==> Contains(Lower(url), GreenhouseHost)
    ensures r == Greenhouse || r == Unsupported
  {
    if Contains(Lower(url), GreenhouseHost) then Greenhouse else Unsupported
  }

  /** The classification ignores letter case. */
  lemma ClassifyIgnoresCase(url: string)
    ensures ClassifyAts(Lower(url)) == ClassifyAts(url)
  {
    TextFacts.LowerIdempotent(url);
  }

  /** The node. `created` is the executor the node would construct; opening
      its browser page is not modelled, so a constructed executor always has
      a page. Every failed check raises before any executor is created. */
  function AtsSubmitStart(st: State, created: Handle): (r: Result<State, string>)
    ensures r.Success? <==>
      st.currentJob.Some? && st.currentJob.value.applyUrl.Some?
      && ClassifyAts(st.currentJob.value.applyUrl.value) == Greenhouse
    ensures r.Success? ==>
      && r.value.atsType == Some(Greenhouse)
      && r.value.executor.Some?
      && (st.executor.Some? ==> r.value.executor == st.executor)
      && (st.executor.None? ==> r.value.executor == Some(created))
      && r.value == st.(atsType := r.value.atsType, executor := r.value.executor)
  {
    if st.currentJob.None? then Failure("AssertionError: current_job is None")
    else if st.currentJob.value.applyUrl.None? then Failure("AttributeError: apply_url is None")
    else
      var ats := ClassifyAts(st.currentJob.value.applyUrl.value);
      if ats != Greenhouse then Failure("AssertionError: Unsupported ATS")
      else
        var executor := if st.executor.None? then Some(created) else st.executor;
        Success(st.(atsType := Some(ats), executor := executor))
  }

  /** Running the node twice creates the executor at most once: the second
      run keeps the executor of the first, whatever it would construct. */
  lemma ExecutorCreatedOnce(st: State, first: Handle, second: Handle)
    requires AtsSubmitStart(st, first).Success?
    ensures AtsSubmitStart(AtsSubmitStart(st, first).value, second).Success?
    ensures AtsSubmitStart(AtsSubmitStart(st, first).value, second).value
         == AtsSubmitStart(st, first).value
  {
  }
}
