/** The run ledger (`ResultStore`): an append-only list of per-job outcomes
    and the summary counts computed when the run is saved. */
module Ledger {
  import opened Wrappers

  datatype Status = Submitted | Failed

  /** One ledger entry. A failure carries its error text, and its error type
      is the class name of that text, which is always `str`. */
  datatype Entry = Entry(
    company: string,
    title: string,
    status: Status,
    error: Option<string>,
    errorType: Option<string>)

  datatype Summary = Summary(totalJobs: nat, submitted: nat, failed: nat)

  datatype ResultStore = ResultStore(
    candidate: string,
    jobs: seq<Entry>,
    summary: Option<Summary>)

  function NewStore(candidate: string): (r: ResultStore)
    ensures r.candidate == candidate && r.jobs == [] && r.summary.None?
  {
    ResultStore(candidate, [], None)
  }

  function RecordSuccess(s: ResultStore, company: string, title: string): (r: ResultStore)
    ensures |r.jobs| == |s.jobs| + 1
    ensures r.jobs[..|s.jobs|] == s.jobs
    ensures r.jobs[|s.jobs|].status == Submitted
    ensures r.jobs[|s.jobs|].company == company && r.jobs[|s.jobs|].title == title
    ensures r.candidate == s.candidate && r.summary == s.summary
  {
    s.(jobs := s.jobs + [Entry(company, title, Submitted, None, None)])
  }

  function RecordFailure(s: ResultStore, company: string, title: string, error: string): (r: ResultStore)
    ensures |r.jobs| == |s.jobs| + 1
    ensures r.jobs[..|s.jobs|] == s.jobs
    ensures r.jobs[|s.jobs|].status == Failed && r.jobs[|s.jobs|].error == Some(error)
    ensures r.jobs[|s.jobs|].company == company && r.jobs[|s.jobs|].title == title
    ensures r.candidate == s.candidate && r.summary == s.summary
  {
    s.(jobs := s.jobs + [Entry(company, title, Failed, Some(error), Some("str"))])
  }

  /** Number of entries with the given status. */
  function CountStatus(js: seq<Entry>, status: Status): (n: nat)
    ensures n <= |js|
    decreases |js|
  {
    if |js| == 0 then 0
    else CountStatus(js[..|js| - 1], status) + (if js[|js| - 1].status == status then 1 else 0)
  }

  /** Every entry is either submitted or failed. */
  lemma {:induction false} CountsPartition(js: seq<Entry>)
    ensures CountStatus(js, Submitted) + CountStatus(js, Failed) == |js|
    decreases |js|
  {
    if |js| > 0 {
      CountsPartition(js[..|js| - 1]);
    }
  }

  lemma {:induction false} CountAppend(js: seq<Entry>, e: Entry, status: Status)
    ensures CountStatus(js + [e], status) == CountStatus(js, status) + (if e.status == status then 1 else 0)
  {
    assert (js + [e])[..|js + [e]| - 1] == js;
  }

  /** Computes the summary from the entries: the total, and how many
      entries carry each status; the entries are untouched. */
  function Finalize(s: ResultStore): (r: ResultStore)
    ensures r.jobs == s.jobs && r.candidate == s.candidate
    ensures r.summary.Some?
    ensures r.summary.value.totalJobs == |s.jobs|
    ensures r.summary.value.submitted == CountStatus(s.jobs, Submitted)
    ensures r.summary.value.failed == CountStatus(s.jobs, Failed)
    ensures r.summary.value.submitted + r.summary.value.failed == r.summary.value.totalJobs
  {
    CountsPartition(s.jobs);
    s.(summary := Some(Summary(|s.jobs|, CountStatus(s.jobs, Submitted), CountStatus(s.jobs, Failed))))
  }

  /** Saving finalizes the summary; writing the file is not modelled. */
  function Save(s: ResultStore): ResultStore {
    Finalize(s)
  }

  /** Saving again yields the same ledger and counts. */
  lemma SaveIdempotent(s: ResultStore)
    ensures Save(Save(s)) == Save(s)
  {
  }

  /** The count of each status grows by one exactly when an entry of that
      status is recorded. */
  lemma {:induction false} RecordingUpdatesCounts(s: ResultStore, company: string, title: string, error: string)
    ensures Finalize(RecordSuccess(s, company, title)).summary.value.submitted
         == CountStatus(s.jobs, Submitted) + 1
    ensures Finalize(RecordSuccess(s, company, title)).summary.value.failed
         == CountStatus(s.jobs, Failed)
    ensures Finalize(RecordFailure(s, company, title, error)).summary.value.failed
         == CountStatus(s.jobs, Failed) + 1
    ensures Finalize(RecordFailure(s, company, title, error)).summary.value.submitted
         == CountStatus(s.jobs, Submitted)
  {
    CountAppend(s.jobs, Entry(company, title, Submitted, None, None), Submitted);
    CountAppend(s.jobs, Entry(company, title, Submitted, None, None), Failed);
    CountAppend(s.jobs, Entry(company, title, Failed, Some(error), Some("str")), Submitted);
    CountAppend(s.jobs, Entry(company, title, Failed, Some(error), Some("str")), Failed);
  }
}
