/** The supervisor's choice of the job query (`resolve_job_query`): explicit
    user input first, then inference from the CV, then a fixed default. */
module Supervisor {
  import opened Wrappers
  import opened Models
  import opened Text
  import TextFacts

  const DeveloperSuffix := " Developer"
  const DefaultQuery := "Software Engineer"

  /** The user's query counts when it is not blank after stripping. */
  predicate HasUserQuery(query: Option<string>) {
    query.Some? && Strip(query.value) != ""
  }

  /** The most recent (first) experience entry names a role. */
  predicate HasRecentRole(cv: CV) {
    |cv.experience| > 0 && cv.experience[0].role != ""
  }

  /** `resolve_job_query`. The result is never empty. */
  function ResolveJobQuery(query: Option<string>, cv: CV): (r: string)
    ensures r != ""
    ensures HasUserQuery(query) ==> r == Strip(query.value)
    ensures !HasUserQuery(query) && HasRecentRole(cv) ==> r == cv.experience[0].role
    ensures (!HasUserQuery(query) && !HasRecentRole(cv) && |cv.skills| > 0)
            ==> r == cv.skills[0] + DeveloperSuffix
    ensures (!HasUserQuery(query) && !HasRecentRole(cv) && |cv.skills| == 0) ==> r == DefaultQuery
  {
    if query.Some? && query.value != "" && Strip(query.value) != "" then Strip(query.value)
    else if |cv.experience| > 0 && cv.experience[0].role != "" then cv.experience[0].role
    else if |cv.skills| > 0 then
      assert |cv.skills[0] + DeveloperSuffix| > 0;
      cv.skills[0] + DeveloperSuffix
    else DefaultQuery
  }

  /** A query taken from the user is already stripped. */
  lemma UserQueryIsStripped(query: Option<string>, cv: CV)
    requires HasUserQuery(query)
    ensures Strip(ResolveJobQuery(query, cv)) == ResolveJobQuery(query, cv)
  {
    TextFacts.StripIdempotent(query.value);
  }

  /** Only the first experience entry is consulted: dropping the later ones
      does not change the query. */
  lemma {:induction false} LaterExperienceIgnored(query: Option<string>, cv: CV)
    requires |cv.experience| > 0
    ensures ResolveJobQuery(query, cv) == ResolveJobQuery(query, cv.(experience := cv.experience[..1]))
  {
    var cv' := cv.(experience := cv.experience[..1]);
    assert cv'.experience[0] == cv.experience[0];
    assert HasRecentRole(cv') == HasRecentRole(cv);
  }
}
