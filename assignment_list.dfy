/**
 * The assignment list (src/components/Assignment/AssignmentList.js): its own search term and
 * filtered list, the mount-time fetch and a click that only selects. The fetch guard and the
 * error text are the dashboard's.
 */
module AssignmentList {
  import opened Wrappers
  import opened ReportGenerator
  import opened AppContext
  import opened Search
  import opened Dashboard

  class AssignmentListView {
    var searchTerm: string
    var filteredAssignments: seq<Assignment>

    /** The list shown is the context's list under the current term. */
    predicate Shows(app: AppState)
      reads this, app
    {
      filteredAssignments == FilterAssignments(app.assignments, searchTerm)
    }

    constructor()
      ensures searchTerm == "" && filteredAssignments == []
    {
      searchTerm := "";
      filteredAssignments := [];
    }

    /** The filter effect on `[searchTerm, assignments]`. */
    method RefreshFilter(app: AppState)
      modifies this
      ensures Shows(app) && searchTerm == old(searchTerm)
    {
      if IsBlankTerm(searchTerm) {
        filteredAssignments := app.assignments;
      } else {
        filteredAssignments := FilterAssignments(app.assignments, searchTerm);
      }
    }

    method SetSearchTerm(app: AppState, term: string)
      modifies this
      ensures searchTerm == term && Shows(app)
    {
      searchTerm := term;
      RefreshFilter(app);
    }

    /** The fetch effect on `[apiKeys.ezekiaApiKey]`; `result` is how `fetchAssignments` settles. */
    method FetchAssignmentsEffect(app: AppState, result: Result<seq<Assignment>, string>) returns (fetched: bool)
      modifies this, app
      ensures fetched <==> ShouldFetchAssignments(old(app.apiKeys))
      ensures !fetched ==> (app.assignments == old(app.assignments) && app.error == old(app.error)
        && app.loading == old(app.loading) && filteredAssignments == old(filteredAssignments))
      ensures fetched && result.Ok? ==> app.assignments == result.value && app.error == old(app.error) && Shows(app)
      ensures fetched && result.Err? ==> app.assignments == old(app.assignments) && app.error == Some(AssignmentsFetchFailed)
      ensures fetched ==> app.loading == old(app.loading).(assignments := false) && Shows(app)
      ensures app.apiKeys == old(app.apiKeys) && app.candidates == old(app.candidates)
      ensures app.selectedAssignment == old(app.selectedAssignment) && app.selectedCandidate == old(app.selectedCandidate)
      ensures app.generatedReport == old(app.generatedReport) && app.reportConfig == old(app.reportConfig)
      ensures searchTerm == old(searchTerm)
    {
      if app.apiKeys.ezekiaApiKey == "" {
        return false;
      }
      fetched := true;
      var start := app.loading;
      app.loading := start.(assignments := true);
      if result.Ok? {
        app.assignments := result.value;
        filteredAssignments := result.value;
      } else {
        app.error := Some(AssignmentsFetchFailed);
      }
      app.loading := start.(assignments := false);
      RefreshFilter(app);
    }

    /** `handleAssignmentClick`: unlike the dashboard's, it leaves the candidate to the context's reset effect. */
    method HandleAssignmentClick(app: AppState, a: Assignment)
      modifies app
      ensures app.selectedAssignment == Some(a)
      ensures Some(a) != old(app.selectedAssignment) ==> app.selectedCandidate == None && app.generatedReport == None
      ensures Some(a) == old(app.selectedAssignment) ==>
        app.selectedCandidate == old(app.selectedCandidate) && app.generatedReport == old(app.generatedReport)
      ensures app.apiKeys == old(app.apiKeys) && app.assignments == old(app.assignments) && app.candidates == old(app.candidates)
      ensures app.error == old(app.error) && app.loading == old(app.loading) && app.reportConfig == old(app.reportConfig)
    {
      app.SetSelectedAssignment(Some(a));
    }
  }
}
