/**
 * The application state shared through React context (src/context/AppContext.js): the API
 * keys, the fetched lists, the two selections, the report configuration and result, the
 * loading flags and the error banner. The effects that reset selections run as part of the
 * setter that changes their dependency.
 */
module AppContext {
  import opened Wrappers
  import opened Ipc
  import opened ReportGenerator

  datatype Loading = Loading(assignments: bool, candidates: bool, report: bool)

  /** How `window.api.saveApiKeys` settles: `{success: true}`, `{success: false, message}`, or a throw. */
  datatype SaveOutcome = Saved | NotSaved(message: string) | SaveThrew

  const LoadKeysFailed := "Failed to load API keys. Please check application settings."
  const SaveKeysFailed := "Failed to save API keys. Please try again."

  /** The provider's initial `apiKeys`, which the mount-time effect's closure keeps seeing. */
  const MountKeys := ApiKeys("", "")

  /**
   * The key-load condition as written: a loaded key is non-empty, or the keys `seen` hold none.
   * `seen` is the `apiKeys` the effect's closure captured.
   */
  predicate ShouldReplaceKeys(seen: ApiKeys, loaded: ApiKeys)
  {
    loaded.ezekiaApiKey != "" || loaded.openaiApiKey != ""
    || (seen.ezekiaApiKey == "" && seen.openaiApiKey == "")
  }

  /** What the condition leaves in place of the keys `seen`. */
  function KeysAfterLoad(seen: ApiKeys, loaded: ApiKeys): ApiKeys
  {
    if ShouldReplaceKeys(seen, loaded) then loaded else seen
  }

  predicate HasKey(keys: ApiKeys)
  {
    keys.ezekiaApiKey != "" || keys.openaiApiKey != ""
  }

  /**
   * The condition, read against arbitrary keys `seen`, would never lose a key: a load with any
   * key takes over, and an empty load keeps keys that are set. Read against the mount-time
   * keys, as the effect's closure does, it always takes the loaded keys.
   */
  lemma KeysAfterLoadSpec(seen: ApiKeys, loaded: ApiKeys)
    ensures HasKey(KeysAfterLoad(seen, loaded)) <==> HasKey(seen) || HasKey(loaded)
    ensures HasKey(loaded) ==> KeysAfterLoad(seen, loaded) == loaded
    ensures !HasKey(loaded) && HasKey(seen) ==> KeysAfterLoad(seen, loaded) == seen
    ensures KeysAfterLoad(MountKeys, loaded) == loaded
  {
  }

  class AppState {
    var apiKeys: ApiKeys
    var assignments: seq<Assignment>
    var candidates: seq<Candidate>
    var selectedAssignment: Option<Assignment>
    var selectedCandidate: Option<Candidate>
    var reportConfig: ReportConfig
    var generatedReport: Option<GeneratedReport>
    var loading: Loading
    var error: Option<string>

    /** The initial state of the provider. */
    constructor()
      ensures apiKeys == MountKeys
      ensures assignments == [] && candidates == []
      ensures selectedAssignment == None && selectedCandidate == None && generatedReport == None
      ensures reportConfig == ReportConfig(true, true, true)
      ensures loading == Loading(false, false, false)
      ensures error == None
    {
      apiKeys := MountKeys;
      assignments := [];
      candidates := [];
      selectedAssignment := None;
      selectedCandidate := None;
      reportConfig := ReportConfig(true, true, true);
      generatedReport := None;
      loading := Loading(false, false, false);
      error := None;
    }

    /**
     * The mount-time key load; `loaded` is `None` when `getApiKeys` throws. The condition reads
     * the `apiKeys` of the first render, not the current ones, so the loaded keys always
     * replace whatever is set by then, even keys saved in the meantime.
     */
    method LoadKeys(loaded: Option<ApiKeys>)
      modifies this
      ensures loaded.Some? ==> apiKeys == loaded.value && error == old(error)
      ensures loaded.None? ==> apiKeys == old(apiKeys) && error == Some(LoadKeysFailed)
      ensures assignments == old(assignments) && candidates == old(candidates)
      ensures selectedAssignment == old(selectedAssignment) && selectedCandidate == old(selectedCandidate)
      ensures reportConfig == old(reportConfig) && generatedReport == old(generatedReport) && loading == old(loading)
    {
      if loaded.None? {
        error := Some(LoadKeysFailed);
        return;
      }
      var keys := loaded.value;
      var seen := MountKeys;
      if keys.ezekiaApiKey != "" || keys.openaiApiKey != ""
         || (seen.ezekiaApiKey == "" && seen.openaiApiKey == "") {
        apiKeys := keys;
      }
    }

    /**
     * `saveApiKeys`: install the keys iff the bridge reports success; otherwise set the error
     * (the bridge's message, or the fixed one) and keep the keys.
     */
    method SaveApiKeys(newKeys: ApiKeys, outcome: SaveOutcome) returns (ok: bool)
      modifies this
      ensures ok <==> outcome.Saved?
      ensures ok ==> apiKeys == newKeys && error == old(error)
      ensures outcome.NotSaved? ==> apiKeys == old(apiKeys) && error == Some(OrDefault(outcome.message, SaveKeysFailed))
      ensures outcome.SaveThrew? ==> apiKeys == old(apiKeys) && error == Some(SaveKeysFailed)
      ensures assignments == old(assignments) && candidates == old(candidates)
      ensures selectedAssignment == old(selectedAssignment) && selectedCandidate == old(selectedCandidate)
      ensures reportConfig == old(reportConfig) && generatedReport == old(generatedReport) && loading == old(loading)
    {
      match outcome {
        case Saved =>
          apiKeys := newKeys;
          ok := true;
        case NotSaved(message) =>
          error := Some(if message != "" then message else SaveKeysFailed);
          ok := false;
        case SaveThrew =>
          error := Some(SaveKeysFailed);
          ok := false;
      }
    }

    /**
     * `setSelectedAssignment`, followed by the effect on `[selectedAssignment]`: when the value
     * changed to a non-null assignment, the candidate and the report are cleared.
     */
    method SetSelectedAssignment(a: Option<Assignment>)
      modifies this
      ensures selectedAssignment == a
      ensures a != old(selectedAssignment) && a.Some? ==> selectedCandidate == None && generatedReport == None
      ensures !(a != old(selectedAssignment) && a.Some?) ==>
        selectedCandidate == old(selectedCandidate) && generatedReport == old(generatedReport)
      ensures apiKeys == old(apiKeys) && assignments == old(assignments) && candidates == old(candidates)
      ensures reportConfig == old(reportConfig) && loading == old(loading) && error == old(error)
    {
      var changed := a != selectedAssignment;
      selectedAssignment := a;
      if changed && a.Some? {
        SetSelectedCandidate(None);
        generatedReport := None;
      }
    }

    /**
     * `setSelectedCandidate`, followed by the effect on `[selectedCandidate]`: when the value
     * changed to a non-null candidate, the report is cleared.
     */
    method SetSelectedCandidate(c: Option<Candidate>)
      modifies this
      ensures selectedCandidate == c
      ensures c != old(selectedCandidate) && c.Some? ==> generatedReport == None
      ensures !(c != old(selectedCandidate) && c.Some?) ==> generatedReport == old(generatedReport)
      ensures apiKeys == old(apiKeys) && assignments == old(assignments) && candidates == old(candidates)
      ensures selectedAssignment == old(selectedAssignment)
      ensures reportConfig == old(reportConfig) && loading == old(loading) && error == old(error)
    {
      var changed := c != selectedCandidate;
      selectedCandidate := c;
      if changed && c.Some? {
        generatedReport := None;
      }
    }
  }
}
