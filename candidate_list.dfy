/**
 * The candidate list (src/components/Candidate/CandidateList.js): its own search term and
 * filtered list, the fetch for the `assignmentId` prop and a click that selects. An
 * `assignmentId` of 0 stands for a missing id.
 */
module CandidateList {
  import opened Wrappers
  import opened Ipc
  import opened ReportGenerator
  import opened AppContext
  import opened Search
  import opened Dashboard

  /** The fetch guard: a key and a truthy assignment id. */
  predicate ShouldFetchFor(keys: ApiKeys, assignmentId: int)
  {
    keys.ezekiaApiKey != "" && assignmentId != 0
  }

  class CandidateListView {
    const assignmentId: int
    var searchTerm: string
    var filteredCandidates: seq<Candidate>

    predicate Shows(app: AppState)
      reads this, app
    {
      filteredCandidates == FilterCandidates(app.candidates, searchTerm)
    }

    constructor(assignmentId: int)
      ensures this.assignmentId == assignmentId && searchTerm == "" && filteredCandidates == []
    {
      this.assignmentId := assignmentId;
      searchTerm := "";
      filteredCandidates := [];
    }

    /** The filter effect on `[searchTerm, candidates]`. */
    method RefreshFilter(app: AppState)
      modifies this
      ensures Shows(app) && searchTerm == old(searchTerm)
    {
      if IsBlankTerm(searchTerm) {
        filteredCandidates := app.candidates;
      } else {
        filteredCandidates := FilterCandidates(app.candidates, searchTerm);
      }
    }

    method SetSearchTerm(app: AppState, term: string)
      modifies this
      ensures searchTerm == term && Shows(app)
    {
      searchTerm := term;
      RefreshFilter(app);
    }

    /** The fetch effect on `[assignmentId, apiKeys.ezekiaApiKey]`; `result` is how `fetchCandidates(assignmentId)` settles. */
    method FetchCandidatesEffect(app: AppState, result: Result<seq<Candidate>, string>) returns (fetched: bool)
      modifies this, app
      ensures fetched <==> ShouldFetchFor(old(app.apiKeys), assignmentId)
      ensures !fetched ==> (app.candidates == old(app.candidates) && app.error == old(app.error)
        && app.loading == old(app.loading) && filteredCandidates == old(filteredCandidates))
      ensures fetched && result.Ok? ==> app.candidates == result.value && app.error == old(app.error)
      ensures fetched && result.Err? ==> app.candidates == old(app.candidates) && app.error == Some(CandidatesFetchFailed)
      ensures fetched ==> app.loading == old(app.loading).(candidates := false) && Shows(app)
      ensures app.apiKeys == old(app.apiKeys) && app.assignments == old(app.assignments)
      ensures app.selectedAssignment == old(app.selectedAssignment) && app.selectedCandidate == old(app.selectedCandidate)
      ensures app.generatedReport == old(app.generatedReport) && app.reportConfig == old(app.reportConfig)
      ensures searchTerm == old(searchTerm)
    {
      if app.apiKeys.ezekiaApiKey == "" || assignmentId == 0 {
        return false;
      }
      fetched := true;
      var start := app.loading;
      app.loading := start.(candidates := true);
      if result.Ok? {
        app.candidates := result.value;
        filteredCandidates := result.value;
      } else {
        app.error := Some(CandidatesFetchFailed);
      }
      app.loading := start.(candidates := false);
      RefreshFilter(app);
    }

    method HandleCandidateClick(app: AppState, c: Candidate)
      modifies app
      ensures app.selectedCandidate == Some(c) && app.selectedAssignment == old(app.selectedAssignment)
      ensures Some(c) != old(app.selectedCandidate) ==> app.generatedReport == None
      ensures Some(c) == old(app.selectedCandidate) ==> app.generatedReport == old(app.generatedReport)
      ensures app.apiKeys == old(app.apiKeys) && app.assignments == old(app.assignments) && app.candidates == old(app.candidates)
      ensures app.error == old(app.error) && app.loading == old(app.loading) && app.reportConfig == old(app.reportConfig)
    {
      app.SetSelectedCandidate(Some(c));
    }
  }
}
