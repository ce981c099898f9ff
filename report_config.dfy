/**
 * The report configuration panel (src/components/Report/ReportConfig.js): three checkboxes
 * over the shared `reportConfig`, the guards and outcome of "Generate Report", and the
 * button's disabled rule. How `generateReport` settles is a parameter.
 */
module ReportConfigPanel {
  import opened Wrappers
  import opened Ipc
  import opened ReportGenerator
  import opened AppContext

  const KeysNotConfigured := "API keys are not configured. Please check your settings."
  const NothingSelected := "No candidate or assignment selected."
  const GenerationFailed := "Failed to generate report. Please try again."

  /** The `name` attribute of each checkbox. */
  datatype ConfigField = IncludePersonal | IncludeExperience | IncludeEducation

  function Flag(config: ReportConfig, field: ConfigField): bool
  {
    match field
    case IncludePersonal => config.includePersonal
    case IncludeExperience => config.includeExperience
    case IncludeEducation => config.includeEducation
  }

  /** `{ ...reportConfig, [name]: checked }`: the named flag takes the new value, the others stay. */
  function WithFlag(config: ReportConfig, field: ConfigField, checked: bool): (r: ReportConfig)
    ensures Flag(r, field) == checked
    ensures forall f :: f != field ==> Flag(r, f) == Flag(config, f)
  {
    match field
    case IncludePersonal => config.(includePersonal := checked)
    case IncludeExperience => config.(includeExperience := checked)
    case IncludeEducation => config.(includeEducation := checked)
  }

  /** Ticking a box and ticking it back restores the configuration. */
  lemma WithFlagUndo(config: ReportConfig, field: ConfigField, checked: bool)
    ensures WithFlag(WithFlag(config, field, checked), field, Flag(config, field)) == config
  {
    var r := WithFlag(WithFlag(config, field, checked), field, Flag(config, field));
    assert forall f :: Flag(r, f) == Flag(config, f);
    assert Flag(r, IncludePersonal) == Flag(config, IncludePersonal);
    assert Flag(r, IncludeExperience) == Flag(config, IncludeExperience);
    assert Flag(r, IncludeEducation) == Flag(config, IncludeEducation);
  }

  /** The button is disabled while a report is generating or when no section is chosen. */
  predicate GenerateDisabled(loadingReport: bool, config: ReportConfig)
  {
    loadingReport || (!config.includePersonal && !config.includeExperience && !config.includeEducation)
  }

  /** Enabled means idle with at least one section, named by a checkbox, switched on. */
  lemma GenerateEnabled(loadingReport: bool, config: ReportConfig)
    ensures !GenerateDisabled(loadingReport, config) <==> !loadingReport && exists f :: Flag(config, f)
  {
    if !GenerateDisabled(loadingReport, config) {
      if config.includePersonal { assert Flag(config, IncludePersonal); }
      else if config.includeExperience { assert Flag(config, IncludeExperience); }
      else { assert Flag(config, IncludeEducation); }
    }
  }

  /** Where `handleGenerateReport` stops before generating. */
  datatype Gate = MissingKeys | MissingIds | Proceed

  /** Both keys are checked first, then both ids (an id of 0 is a missing one). */
  function GenerateGate(keys: ApiKeys, candidateId: int, assignmentId: int): (r: Gate)
    ensures r == Proceed <==> keys.ezekiaApiKey != "" && keys.openaiApiKey != "" && candidateId != 0 && assignmentId != 0
    ensures r == MissingKeys <==> keys.ezekiaApiKey == "" || keys.openaiApiKey == ""
  {
    if keys.ezekiaApiKey == "" || keys.openaiApiKey == "" then MissingKeys
    else if candidateId == 0 || assignmentId == 0 then MissingIds
    else Proceed
  }

  /** `handleCheckboxChange` */
  method HandleCheckboxChange(app: AppState, field: ConfigField, checked: bool)
    modifies app
    ensures app.reportConfig == WithFlag(old(app.reportConfig), field, checked)
    ensures app.apiKeys == old(app.apiKeys) && app.assignments == old(app.assignments) && app.candidates == old(app.candidates)
    ensures app.selectedAssignment == old(app.selectedAssignment) && app.selectedCandidate == old(app.selectedCandidate)
    ensures app.generatedReport == old(app.generatedReport) && app.loading == old(app.loading) && app.error == old(app.error)
  {
    app.reportConfig := WithFlag(app.reportConfig, field, checked);
  }

  /**
   * `handleGenerateReport`. A failed gate sets its message and changes nothing else. Past the
   * gates, `outcome` is how `generateReport(candidateId, assignmentId, reportConfig)` settles:
   * a report replaces the current one, a failure sets the message and keeps it; the report
   * loading flag ends false either way.
   */
  method HandleGenerateReport(app: AppState, candidateId: int, assignmentId: int,
                              outcome: Result<GeneratedReport, string>) returns (attempted: bool)
    modifies app
    ensures attempted <==> GenerateGate(old(app.apiKeys), candidateId, assignmentId) == Proceed
    ensures GenerateGate(old(app.apiKeys), candidateId, assignmentId) == MissingKeys ==>
      app.error == Some(KeysNotConfigured) && app.loading == old(app.loading) && app.generatedReport == old(app.generatedReport)
    ensures GenerateGate(old(app.apiKeys), candidateId, assignmentId) == MissingIds ==>
      app.error == Some(NothingSelected) && app.loading == old(app.loading) && app.generatedReport == old(app.generatedReport)
    ensures attempted && outcome.Ok? ==> app.generatedReport == Some(outcome.value) && app.error == old(app.error)
    ensures attempted && outcome.Err? ==> app.generatedReport == old(app.generatedReport) && app.error == Some(GenerationFailed)
    ensures attempted ==> app.loading == old(app.loading).(report := false)
    ensures app.apiKeys == old(app.apiKeys) && app.assignments == old(app.assignments) && app.candidates == old(app.candidates)
    ensures app.selectedAssignment == old(app.selectedAssignment) && app.selectedCandidate == old(app.selectedCandidate)
    ensures app.reportConfig == old(app.reportConfig)
  {
    if app.apiKeys.ezekiaApiKey == "" || app.apiKeys.openaiApiKey == "" {
      app.error := Some(KeysNotConfigured);
      return false;
    }
    if candidateId == 0 || assignmentId == 0 {
      app.error := Some(NothingSelected);
      return false;
    }
    attempted := true;
    var start := app.loading;
    app.loading := start.(report := true);
    if outcome.Ok? {
      app.generatedReport := Some(outcome.value);
    } else {
      app.error := Some(GenerationFailed);
    }
    app.loading := start.(report := false);
  }
}
