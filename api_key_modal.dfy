/**
 * The API key dialog (src/components/UI/ApiKeyModal.js): the form copy of the keys, the
 * input and submit handlers, and the rules for the Save button and for closing. Whether the
 * application runs in development mode is a parameter.
 */
module ApiKeyModal {
  import opened Wrappers
  import opened Ipc
  import opened AppContext
  import opened ReportGenerator

  const SavedMessage := "API keys saved successfully!"
  const SaveRejected := "Failed to save API keys. Please check your entries and try again."

  /** The `name` attribute of each input. */
  datatype KeyField = EzekiaKey | OpenAIKey

  function WithKey(form: ApiKeys, field: KeyField, value: string): (r: ApiKeys)
    ensures field == EzekiaKey ==> r.ezekiaApiKey == value && r.openaiApiKey == form.openaiApiKey
    ensures field == OpenAIKey ==> r.openaiApiKey == value && r.ezekiaApiKey == form.ezekiaApiKey
  {
    match field
    case EzekiaKey => form.(ezekiaApiKey := value)
    case OpenAIKey => form.(openaiApiKey := value)
  }

  /** Save is disabled while saving or while either key is empty. */
  predicate SaveDisabled(form: ApiKeys, loading: bool)
  {
    form.ezekiaApiKey == "" || form.openaiApiKey == "" || loading
  }

  /** The dialog may be closed once both keys are set, or always in development mode. */
  predicate CanClose(keys: ApiKeys, isDev: bool)
  {
    (keys.ezekiaApiKey != "" && keys.openaiApiKey != "") || isDev
  }

  /** Keys the Save button accepts are keys that let the dialog close, in either mode. */
  lemma SavableKeysClose(form: ApiKeys, loading: bool, isDev: bool)
    ensures !SaveDisabled(form, loading) ==> CanClose(form, isDev)
    ensures !CanClose(form, false) ==> SaveDisabled(form, loading)
  {
  }

  class ApiKeyModalView {
    var form: ApiKeys
    var loading: bool
    var error: string
    var successMessage: string

    /** The initial form copies the context's keys (`|| ''` is the identity on strings). */
    constructor(keys: ApiKeys)
      ensures form == keys && !loading && error == "" && successMessage == ""
    {
      form := keys;
      loading := false;
      error := "";
      successMessage := "";
    }

    /** The effect on `[apiKeys]`: the form is reset to the context's keys. */
    method SyncWithKeys(keys: ApiKeys)
      modifies this
      ensures form == keys
      ensures loading == old(loading) && error == old(error) && successMessage == old(successMessage)
    {
      form := keys;
    }

    /** `handleInputChange`: update the one field and clear both messages. */
    method HandleInputChange(field: KeyField, value: string)
      modifies this
      ensures form == WithKey(old(form), field, value)
      ensures error == "" && successMessage == "" && loading == old(loading)
    {
      form := WithKey(form, field, value);
      error := "";
      successMessage := "";
    }

    /**
     * `handleSubmit`: save the form through the context. On success the success message is
     * shown, the context holds the form's keys and the form (reset from them) is unchanged;
     * otherwise the fixed rejection message is shown. Saving never leaves the dialog loading.
     */
    method HandleSubmit(app: AppState, outcome: SaveOutcome) returns (saved: bool)
      modifies this, app
      ensures saved <==> outcome.Saved?
      ensures saved ==> app.apiKeys == old(form) && form == old(form) && successMessage == SavedMessage && error == ""
      ensures !saved ==> app.apiKeys == old(app.apiKeys) && form == old(form) && error == SaveRejected && successMessage == ""
      ensures saved && !SaveDisabled(old(form), old(loading)) ==> CanClose(app.apiKeys, false)
      ensures !loading
      ensures outcome.Saved? ==> app.error == old(app.error)
      ensures outcome.NotSaved? ==> app.error == Some(OrDefault(outcome.message, SaveKeysFailed))
      ensures outcome.SaveThrew? ==> app.error == Some(SaveKeysFailed)
      ensures app.assignments == old(app.assignments) && app.candidates == old(app.candidates)
      ensures app.selectedAssignment == old(app.selectedAssignment) && app.selectedCandidate == old(app.selectedCandidate)
      ensures app.reportConfig == old(app.reportConfig) && app.generatedReport == old(app.generatedReport)
      ensures app.loading == old(app.loading)
    {
      loading := true;
      error := "";
      successMessage := "";
      saved := app.SaveApiKeys(form, outcome);
      if saved {
        successMessage := SavedMessage;
        SyncWithKeys(app.apiKeys);
      } else {
        error := SaveRejected;
      }
      loading := false;
    }
  }
}
