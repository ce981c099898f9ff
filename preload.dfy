/**
 * The preload bridge (public/preload.js): `ezekiaRequest` moves an array-valued
 * `params['fields[]']` into `requestOptions.fieldsArray` before invoking the main process,
 * which puts it back (see `ElectronMain.MergeFieldsArray`).
 */
module Preload {
  import opened Wrappers
  import opened Ipc
  import opened ElectronMain

  /** The array to move: `params['fields[]']` when `params` exists and that entry is an array. */
  function FieldsToMove(params: Option<Params>): (r: Option<seq<string>>)
    ensures r.Some? <==> params.Some? && Get(params.value, FieldsKey).Some? && Get(params.value, FieldsKey).value.List?
    ensures r.Some? ==> Get(params.value, FieldsKey) == Some(List(r.value))
  {
    if params.Some? && Get(params.value, FieldsKey).Some? && Get(params.value, FieldsKey).value.List? then
      Some(Get(params.value, FieldsKey).value.items)
    else None
  }

  /** The options object the renderer passes to `window.api.ezekiaRequest`. */
  class RequestOptions {
    var httpMethod: string
    var endpoint: string
    var params: Option<Params>
    var data: string
    var fieldsArray: Option<seq<string>>

    constructor(httpMethod: string, endpoint: string, params: Option<Params>, data: string)
      ensures this.httpMethod == httpMethod && this.endpoint == endpoint && this.params == params
      ensures this.data == data && this.fieldsArray == None
    {
      this.httpMethod := httpMethod;
      this.endpoint := endpoint;
      this.params := params;
      this.data := data;
      this.fieldsArray := None;
    }

    /** What `ipcRenderer.invoke` carries to the main process. */
    function Payload(): RequestPayload
      reads this
    {
      RequestPayload(httpMethod, endpoint, params, data, fieldsArray)
    }

    /**
     * `ezekiaRequest`: when `params['fields[]']` is an array, delete it from `params`, copy the
     * remaining entries into a fresh `params`, and store the array as `fieldsArray`; otherwise
     * leave the options alone. Then hand the options over.
     */
    method EzekiaRequest() returns (payload: RequestPayload)
      modifies this
      ensures httpMethod == old(httpMethod) && endpoint == old(endpoint) && data == old(data)
      ensures FieldsToMove(old(params)).Some? ==>
        params == Some(Delete(old(params).value, FieldsKey)) && fieldsArray == FieldsToMove(old(params))
      ensures FieldsToMove(old(params)).None? ==> params == old(params) && fieldsArray == old(fieldsArray)
      ensures payload == Payload()
    {
      if params.Some? {
        var fields := Get(params.value, FieldsKey);
        if fields.Some? && fields.value.List? {
          var remaining := Delete(params.value, FieldsKey);
          params := Some(remaining);
          fieldsArray := Some(fields.value.items);
        }
      }
      payload := Payload();
    }
  }

  /** What the rewrite leaves in `params` and `fieldsArray`. */
  function Rewritten(params: Option<Params>, fieldsArray: Option<seq<string>>): (Option<Params>, Option<seq<string>>)
  {
    if FieldsToMove(params).Some? then (Some(Delete(params.value, FieldsKey)), FieldsToMove(params))
    else (params, fieldsArray)
  }

  /**
   * Through the preload rewrite and the main process's merge, a non-empty `fields[]` array
   * comes back unchanged and every other entry keeps its value.
   */
  lemma FieldsRoundTrip(ps: Params, items: seq<string>)
    requires Get(ps, FieldsKey) == Some(List(items)) && items != []
    ensures var (params, fieldsArray) := Rewritten(Some(ps), None);
      var merged := MergeFieldsArray(params, fieldsArray);
      merged.Some? && forall k :: Get(merged.value, k) == Get(ps, k)
  {
    var (params, fieldsArray) := Rewritten(Some(ps), None);
    assert fieldsArray == Some(items);
    var merged := MergeFieldsArray(params, fieldsArray);
    forall k ensures Get(merged.value, k) == Get(ps, k) {
      if k != FieldsKey {
        assert Get(merged.value, k) == Get(params.GetOr([]), k);
      }
    }
  }

  /** An empty `fields[]` array is taken out and not put back, so the main process sees no such entry. */
  lemma EmptyFieldsDropped(ps: Params)
    requires Get(ps, FieldsKey) == Some(List([]))
    ensures var (params, fieldsArray) := Rewritten(Some(ps), None);
      var merged := MergeFieldsArray(params, fieldsArray);
      merged.Some? && Get(merged.value, FieldsKey) == None
      && forall k :: k != FieldsKey ==> Get(merged.value, k) == Get(ps, k)
  {
  }

  /** A scalar `fields[]` (what every client call passes) goes through untouched. */
  lemma ScalarFieldsUntouched(ps: Params, text: string, fieldsArray: Option<seq<string>>)
    requires Get(ps, FieldsKey) == Some(Scalar(text))
    ensures Rewritten(Some(ps), fieldsArray) == (Some(ps), fieldsArray)
  {
  }
}
