/**
 * The dashboard (src/components/Dashboard/Dashboard.js): its local search terms, filtered
 * lists and the assignment-selection toggle, with the fetch effects, the filter effects and the
 * click and back handlers acting on the shared `AppState`. A fetch's result is a parameter.
 */
module Dashboard {
  import opened Wrappers
  import opened Ipc
  import opened ReportGenerator
  import opened AppContext
  import opened Search

  const AssignmentsFetchFailed := "Failed to fetch assignments. Please check your API key and try again."
  const CandidatesFetchFailed := "Failed to fetch candidates. Please try again."

  /** The assignment fetch runs only with an Ezekia key. */
  predicate ShouldFetchAssignments(keys: ApiKeys)
  {
    keys.ezekiaApiKey != ""
  }

  /** The candidate fetch needs a key and a selected assignment. */
  predicate ShouldFetchCandidates(keys: ApiKeys, selected: Option<Assignment>)
  {
    keys.ezekiaApiKey != "" && selected.Some?
  }

  class DashboardView {
    var searchTermAssignment: string
    var searchTermCandidate: string
    var filteredAssignments: seq<Assignment>
    var filteredCandidates: seq<Candidate>
    var showAssignmentSelection: bool

    /** The lists shown are the context's lists under the current search terms. */
    predicate Shows(app: AppState)
      reads this, app
    {
      filteredAssignments == FilterAssignments(app.assignments, searchTermAssignment)
      && filteredCandidates == FilterCandidates(app.candidates, searchTermCandidate)
    }

    constructor()
      ensures searchTermAssignment == "" && searchTermCandidate == ""
      ensures filteredAssignments == [] && filteredCandidates == []
      ensures showAssignmentSelection
    {
      searchTermAssignment := "";
      searchTermCandidate := "";
      filteredAssignments := [];
      filteredCandidates := [];
      showAssignmentSelection := true;
    }

    /** The filter effects, run when a term or a context list changes. */
    method RefreshFilters(app: AppState)
      modifies this
      ensures Shows(app)
      ensures searchTermAssignment == old(searchTermAssignment) && searchTermCandidate == old(searchTermCandidate)
      ensures showAssignmentSelection == old(showAssignmentSelection)
    {
      if IsBlankTerm(searchTermAssignment) {
        filteredAssignments := app.assignments;
      } else {
        filteredAssignments := FilterAssignments(app.assignments, searchTermAssignment);
      }
      if IsBlankTerm(searchTermCandidate) {
        filteredCandidates := app.candidates;
      } else {
        filteredCandidates := FilterCandidates(app.candidates, searchTermCandidate);
      }
    }

    method SetSearchTermAssignment(app: AppState, term: string)
      modifies this
      ensures searchTermAssignment == term && searchTermCandidate == old(searchTermCandidate)
      ensures showAssignmentSelection == old(showAssignmentSelection)
      ensures Shows(app)
    {
      searchTermAssignment := term;
      RefreshFilters(app);
    }

    method SetSearchTermCandidate(app: AppState, term: string)
      modifies this
      ensures searchTermCandidate == term && searchTermAssignment == old(searchTermAssignment)
      ensures showAssignmentSelection == old(showAssignmentSelection)
      ensures Shows(app)
    {
      searchTermCandidate := term;
      RefreshFilters(app);
    }

    /**
     * The assignment fetch effect. `result` is how `fetchAssignments` settles. Without a key
     * nothing happens; otherwise the list is installed (or the error set) and the loading
     * flag is back to false.
     */
    method FetchAssignmentsEffect(app: AppState, result: Result<seq<Assignment>, string>) returns (fetched: bool)
      requires Shows(app)
      modifies this, app
      ensures fetched <==> ShouldFetchAssignments(old(app.apiKeys))
      ensures !fetched ==> (app.assignments == old(app.assignments) && app.error == old(app.error)
        && app.loading == old(app.loading) && filteredAssignments == old(filteredAssignments))
      ensures fetched && result.Ok? ==> app.assignments == result.value && app.error == old(app.error)
      ensures fetched && result.Err? ==> app.assignments == old(app.assignments) && app.error == Some(AssignmentsFetchFailed)
      ensures fetched ==> app.loading == old(app.loading).(assignments := false)
      ensures app.apiKeys == old(app.apiKeys) && app.candidates == old(app.candidates)
      ensures app.selectedAssignment == old(app.selectedAssignment) && app.selectedCandidate == old(app.selectedCandidate)
      ensures app.generatedReport == old(app.generatedReport) && app.reportConfig == old(app.reportConfig)
      ensures showAssignmentSelection == old(showAssignmentSelection)
      ensures Shows(app)
    {
      if app.apiKeys.ezekiaApiKey == "" {
        return false;
      }
      fetched := true;
      var start := app.loading;
      app.loading := start.(assignments := true);
      if result.Ok? {
        app.assignments := result.value;
        filteredAssignments := result.value;
      } else {
        app.error := Some(AssignmentsFetchFailed);
      }
      app.loading := start.(assignments := false);
      RefreshFilters(app);
    }

    /** The candidate fetch effect, for the selected assignment. */
    method FetchCandidatesEffect(app: AppState, result: Result<seq<Candidate>, string>) returns (fetched: bool)
      requires Shows(app)
      modifies this, app
      ensures fetched <==> ShouldFetchCandidates(old(app.apiKeys), old(app.selectedAssignment))
      ensures !fetched ==> (app.candidates == old(app.candidates) && app.error == old(app.error)
        && app.loading == old(app.loading) && filteredCandidates == old(filteredCandidates))
      ensures fetched && result.Ok? ==> app.candidates == result.value && app.error == old(app.error)
      ensures fetched && result.Err? ==> app.candidates == old(app.candidates) && app.error == Some(CandidatesFetchFailed)
      ensures fetched ==> app.loading == old(app.loading).(candidates := false)
      ensures app.apiKeys == old(app.apiKeys) && app.assignments == old(app.assignments)
      ensures app.selectedAssignment == old(app.selectedAssignment) && app.selectedCandidate == old(app.selectedCandidate)
      ensures app.generatedReport == old(app.generatedReport) && app.reportConfig == old(app.reportConfig)
      ensures showAssignmentSelection == old(showAssignmentSelection)
      ensures Shows(app)
    {
      if app.apiKeys.ezekiaApiKey == "" || app.selectedAssignment.None? {
        return false;
      }
      fetched := true;
      var start := app.loading;
      app.loading := start.(candidates := true);
      if result.Ok? {
        app.candidates := result.value;
        filteredCandidates := result.value;
      } else {
        app.error := Some(CandidatesFetchFailed);
      }
      app.loading := start.(candidates := false);
      RefreshFilters(app);
    }

    /** `handleAssignmentClick`: select it, clear the candidate, hide the selection. */
    method HandleAssignmentClick(app: AppState, a: Assignment)
      modifies this, app
      ensures app.selectedAssignment == Some(a) && app.selectedCandidate == None
      ensures !showAssignmentSelection
      ensures Some(a) != old(app.selectedAssignment) ==> app.generatedReport == None
      ensures Some(a) == old(app.selectedAssignment) ==> app.generatedReport == old(app.generatedReport)
      ensures app.apiKeys == old(app.apiKeys) && app.assignments == old(app.assignments) && app.candidates == old(app.candidates)
      ensures app.error == old(app.error) && app.loading == old(app.loading) && app.reportConfig == old(app.reportConfig)
      ensures filteredAssignments == old(filteredAssignments) && filteredCandidates == old(filteredCandidates)
      ensures searchTermAssignment == old(searchTermAssignment) && searchTermCandidate == old(searchTermCandidate)
    {
      app.SetSelectedAssignment(Some(a));
      app.SetSelectedCandidate(None);
      showAssignmentSelection := false;
    }

    /** `handleCandidateClick`: select the candidate. */
    method HandleCandidateClick(app: AppState, c: Candidate)
      modifies app
      ensures app.selectedCandidate == Some(c) && app.selectedAssignment == old(app.selectedAssignment)
      ensures Some(c) != old(app.selectedCandidate) ==> app.generatedReport == None
      ensures Some(c) == old(app.selectedCandidate) ==> app.generatedReport == old(app.generatedReport)
      ensures app.apiKeys == old(app.apiKeys) && app.assignments == old(app.assignments) && app.candidates == old(app.candidates)
      ensures app.error == old(app.error) && app.loading == old(app.loading) && app.reportConfig == old(app.reportConfig)
    {
      app.SetSelectedCandidate(Some(c));
    }

    /** `handleBackToAssignments`: only re-shows the selection; both selections stay. */
    method HandleBackToAssignments()
      modifies this
      ensures showAssignmentSelection
      ensures filteredAssignments == old(filteredAssignments) && filteredCandidates == old(filteredCandidates)
      ensures searchTermAssignment == old(searchTermAssignment) && searchTermCandidate == old(searchTermCandidate)
    {
      showAssignmentSelection := true;
    }
  }

  /** `!term.trim()` */
  predicate IsBlankTerm(term: string)
  {
    Text.IsBlank(term)
  }
}
