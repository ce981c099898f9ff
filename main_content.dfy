/**
 * Which view the main area renders (src/components/Layout/MainContent.js), from the two
 * selections, the generated report and the error banner text of the shared state.
 */
module MainContent {
  import opened Wrappers
  import opened ReportGenerator

  datatype View = ErrorBanner | Welcome | AssignmentDetails | CandidateDetails | ReportDisplay

  /** A JavaScript string in a condition: `null` and `''` are false. */
  predicate Truthy(error: Option<string>)
  {
    error.Some? && error.value != ""
  }

  function When(condition: bool, v: View): set<View>
  {
    if condition then {v} else {}
  }

  /** The five conditional blocks of the render, each contributing its view when its condition holds. */
  function Rendered(assignment: Option<Assignment>, candidate: Option<Candidate>,
                    report: Option<GeneratedReport>, error: Option<string>): set<View>
  {
    var e := Truthy(error);
    When(e, ErrorBanner)
    + When(assignment.None? && !e, Welcome)
    + When(assignment.Some? && candidate.None? && !e, AssignmentDetails)
    + When(assignment.Some? && candidate.Some? && report.None? && !e, CandidateDetails)
    + When(assignment.Some? && candidate.Some? && report.Some? && !e, ReportDisplay)
  }

  /** The view the state calls for, decided in order: error, no assignment, no candidate, no report. */
  function Expected(assignment: Option<Assignment>, candidate: Option<Candidate>,
                    report: Option<GeneratedReport>, error: Option<string>): View
  {
    if Truthy(error) then ErrorBanner
    else if assignment.None? then Welcome
    else if candidate.None? then AssignmentDetails
    else if report.None? then CandidateDetails
    else ReportDisplay
  }

  /**
   * The conditions are exclusive and exhaustive: exactly one view renders, the one the
   * ordered decision picks. An error hides everything else, and a report shows only with
   * both selections.
   */
  lemma ExactlyOneView(assignment: Option<Assignment>, candidate: Option<Candidate>,
                       report: Option<GeneratedReport>, error: Option<string>)
    ensures Rendered(assignment, candidate, report, error) == {Expected(assignment, candidate, report, error)}
    ensures Truthy(error) <==> Rendered(assignment, candidate, report, error) == {ErrorBanner}
    ensures ReportDisplay in Rendered(assignment, candidate, report, error) <==>
      !Truthy(error) && assignment.Some? && candidate.Some? && report.Some?
  {
  }

  /** A candidate selected without an assignment is not shown: the welcome screen is. */
  lemma CandidateNeedsAssignment(candidate: Option<Candidate>, report: Option<GeneratedReport>, error: Option<string>)
    requires !Truthy(error)
    ensures Rendered(None, candidate, report, error) == {Welcome}
  {
  }
}
