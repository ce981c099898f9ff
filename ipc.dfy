/**
 * What crosses the bridge between the renderer (public/preload.js) and the main process
 * (public/electron.js): the options object of an `ezekia-request`, whose `params` is a plain
 * JavaScript object, and the pair of API keys.
 */
module Ipc {
  import opened Wrappers

  /** A query parameter's value: a scalar or an array such as `fields[]`. */
  datatype ParamValue = Scalar(text: string) | List(items: seq<string>)

  datatype Param = Param(key: string, value: ParamValue)

  /** A `params` object: its entries in insertion order. */
  type Params = seq<Param>

  /** The keys present in `ps`. */
  function Keys(ps: Params): set<string>
  {
    if ps == [] then {} else {ps[0].key} + Keys(ps[1..])
  }

  /** No key occurs twice, as in any JavaScript object. */
  predicate UniqueKeys(ps: Params)
  {
    ps == [] || (ps[0].key !in Keys(ps[1..]) && UniqueKeys(ps[1..]))
  }

  /** `params[key]`, `None` for a missing key. */
  function Get(ps: Params, key: string): (r: Option<ParamValue>)
    ensures r.Some? <==> key in Keys(ps)
  {
    if ps == [] then None
    else if ps[0].key == key then Some(ps[0].value)
    else Get(ps[1..], key)
  }

  /** `params[key] = v`: an existing entry keeps its place, a new one goes last. */
  function Set(ps: Params, key: string, v: ParamValue): (r: Params)
    ensures Get(r, key) == Some(v)
    ensures forall k :: k != key ==> Get(r, k) == Get(ps, k)
    ensures Keys(r) == Keys(ps) + {key}
    ensures UniqueKeys(ps) ==> UniqueKeys(r)
  {
    if ps == [] then [Param(key, v)]
    else if ps[0].key == key then [Param(key, v)] + ps[1..]
    else [ps[0]] + Set(ps[1..], key, v)
  }

  /** `delete params[key]` */
  function Delete(ps: Params, key: string): (r: Params)
    ensures Get(r, key) == None
    ensures forall k :: k != key ==> Get(r, k) == Get(ps, k)
    ensures Keys(r) == Keys(ps) - {key}
    ensures UniqueKeys(ps) ==> UniqueKeys(r)
  {
    if ps == [] then []
    else if ps[0].key == key then Delete(ps[1..], key)
    else [ps[0]] + Delete(ps[1..], key)
  }

  /** The options of an `ezekia-request`, as the main process receives them (`httpMethod` is `method`). */
  datatype RequestPayload = RequestPayload(
    httpMethod: string, endpoint: string, params: Option<Params>, data: string, fieldsArray: Option<seq<string>>)

  /** The pair of keys the renderer and the main process exchange. */
  datatype ApiKeys = ApiKeys(ezekiaApiKey: string, openaiApiKey: string)
}
