/**
 * The main process (public/electron.js): the query-string serializer handed to axios, the
 * installation of `fieldsArray` as `params['fields[]']`, the key check and error fallback of
 * the `ezekia-request` handler, the store-then-environment logic of `get-api-keys` and
 * `save-api-keys`, and the default file names of the save dialogs.
 */
module ElectronMain {
  import opened Wrappers
  import opened Text
  import opened Ipc
  import opened EzekiaClient

  // ----- encodeURIComponent -----

  /** The characters `encodeURIComponent` leaves alone. */
  predicate Unreserved(c: char)
  {
    ('A' <= c <= 'Z') || ('a' <= c <= 'z') || ('0' <= c <= '9')
    || c == '-' || c == '_' || c == '.' || c == '!' || c == '~' || c == '*' || c == '\'' || c == '(' || c == ')'
  }

  predicate HexChar(c: char)
  {
    ('0' <= c <= '9') || ('A' <= c <= 'F')
  }

  /** A character that can appear in an encoded component. */
  predicate EncodedChar(c: char)
  {
    Unreserved(c) || c == '%' || HexChar(c)
  }

  function HexDigit(d: nat): (c: char)
    requires d < 16
    ensures HexChar(c)
  {
    if d < 10 then ('0' as int + d) as char else ('A' as int + d - 10) as char
  }

  /** The UTF-8 encoding of one Unicode scalar value. */
  function Utf8(c: char): (bytes: seq<nat>)
    ensures 1 <= |bytes| <= 4
    ensures forall k :: 0 <= k < |bytes| ==> bytes[k] < 256
  {
    var n := c as int;
    if n < 0x80 then [n]
    else if n < 0x800 then [0xC0 + n / 64, 0x80 + n % 64]
    else if n < 0x10000 then [0xE0 + n / 4096, 0x80 + (n / 64) % 64, 0x80 + n % 64]
    else [0xF0 + n / 262144, 0x80 + (n / 4096) % 64, 0x80 + (n / 64) % 64, 0x80 + n % 64]
  }

  /** "%XY" per byte, upper-case hex. */
  function PercentBytes(bytes: seq<nat>): (r: string)
    requires forall k :: 0 <= k < |bytes| ==> bytes[k] < 256
    ensures |r| == 3 * |bytes|
    ensures forall k :: 0 <= k < |r| ==> r[k] == '%' || HexChar(r[k])
  {
    if bytes == [] then ""
    else ['%', HexDigit(bytes[0] / 16), HexDigit(bytes[0] % 16)] + PercentBytes(bytes[1..])
  }

  function EncodeChar(c: char): (r: string)
    ensures Unreserved(c) ==> r == [c]
    ensures !Unreserved(c) ==> |r| >= 3 && r[0] == '%'
    ensures forall k :: 0 <= k < |r| ==> EncodedChar(r[k])
  {
    if Unreserved(c) then [c] else PercentBytes(Utf8(c))
  }

  /** `encodeURIComponent`, character by character (a scalar value never is a lone surrogate). */
  function EncodeURIComponent(s: string): (r: string)
    ensures forall k :: 0 <= k < |r| ==> EncodedChar(r[k])
    ensures |r| >= |s|
  {
    if s == "" then "" else EncodeChar(s[0]) + EncodeURIComponent(s[1..])
  }

  /** Text made of unreserved characters passes through unchanged. */
  lemma {:induction false} EncodeUnreserved(s: string)
    requires forall k :: 0 <= k < |s| ==> Unreserved(s[k])
    ensures EncodeURIComponent(s) == s
  {
    if s != "" {
      EncodeUnreserved(s[1..]);
      assert s == [s[0]] + s[1..];
    }
  }

  /** No encoded component contains the pair separator `&` or the key-value separator `=`. */
  lemma EncodedLacksSeparators(s: string)
    ensures !Contains(EncodeURIComponent(s), "&")
    ensures !Contains(EncodeURIComponent(s), "=")
  {
    var r := EncodeURIComponent(s);
    LacksFirstChar(r, "&");
    LacksFirstChar(r, "=");
  }

  // ----- paramsSerializer -----

  /** One "key=value" pair, both sides encoded. */
  function Pair(key: string, value: string): string
  {
    EncodeURIComponent(key) + "=" + EncodeURIComponent(value)
  }

  /** The pairs of an array value: one per element, in order. */
  function ListPairs(key: string, items: seq<string>): (pairs: seq<string>)
    ensures |pairs| == |items|
    ensures forall k :: 0 <= k < |items| ==> pairs[k] == Pair(key, items[k])
  {
    if items == [] then [] else ListPairs(key, items[..|items| - 1]) + [Pair(key, items[|items| - 1])]
  }

  /** The pairs one parameter contributes: the array's pairs, or one for a scalar. */
  function ParamPairs(p: Param): seq<string>
  {
    match p.value
    case Scalar(v) => [Pair(p.key, v)]
    case List(items) => ListPairs(p.key, items)
  }

  /** All pairs of a params object, entry by entry in insertion order. */
  function Pairs(ps: Params): seq<string>
  {
    if ps == [] then [] else Pairs(ps[..|ps| - 1]) + ParamPairs(ps[|ps| - 1])
  }

  /** How many pairs a params object yields: one per scalar, one per array element. */
  function PairCount(ps: Params): nat
  {
    if ps == [] then 0
    else PairCount(ps[..|ps| - 1]) + (match ps[|ps| - 1].value case Scalar(_) => 1 case List(items) => |items|)
  }

  /** The query string the serializer returns. */
  function QueryString(ps: Params): string
  {
    Join(Pairs(ps), "&")
  }

  /** `paramsSerializer`: push one part per pair, then join the parts with '&'. */
  method SerializeParams(ps: Params) returns (query: string)
    ensures query == QueryString(ps)
  {
    var parts: seq<string> := [];
    for i := 0 to |ps|
      invariant parts == Pairs(ps[..i])
    {
      PairsStep(ps, i);
      parts := PushParam(parts, ps[i]);
    }
    assert ps[..|ps|] == ps;
    query := Join(parts, "&");
  }

  /** The serializer's per-entry step: one part per array element, or one for a scalar. */
  method PushParam(parts: seq<string>, p: Param) returns (out: seq<string>)
    ensures out == parts + ParamPairs(p)
  {
    out := parts;
    match p.value {
      case List(items) =>
        for j := 0 to |items|
          invariant out == parts + ListPairs(p.key, items[..j])
        {
          ListPairsStep(p.key, items, j);
          out := out + [Pair(p.key, items[j])];
        }
        assert items[..|items|] == items;
      case Scalar(v) =>
        out := out + [Pair(p.key, v)];
    }
  }

  lemma PairsStep(ps: Params, i: nat)
    requires i < |ps|
    ensures Pairs(ps[..i + 1]) == Pairs(ps[..i]) + ParamPairs(ps[i])
  {
    assert ps[..i + 1][..i] == ps[..i];
  }

  lemma ListPairsStep(key: string, items: seq<string>, j: nat)
    requires j < |items|
    ensures ListPairs(key, items[..j + 1]) == ListPairs(key, items[..j]) + [Pair(key, items[j])]
  {
    assert items[..j + 1][..j] == items[..j];
  }

  /** Every pair lacks '&', and splits on '=' into exactly the encoded key and value. */
  lemma PairShape(key: string, value: string)
    ensures !Contains(Pair(key, value), "&")
    ensures Split(Pair(key, value), "=") == [EncodeURIComponent(key), EncodeURIComponent(value)]
  {
    var k := EncodeURIComponent(key);
    var v := EncodeURIComponent(value);
    EncodedLacksSeparators(key);
    EncodedLacksSeparators(value);
    LacksFirstChar("=", "&");
    ConcatLacks(k, "=", "&");
    ConcatLacks(k + "=", v, "&");
    SplitFirstOccurrence(k, "=", v);
    SplitLacking(v, "=");
  }

  lemma {:induction false} PairsLackAmpersand(ps: Params)
    ensures forall k :: 0 <= k < |Pairs(ps)| ==> !Contains(Pairs(ps)[k], "&")
  {
    if ps != [] {
      PairsLackAmpersand(ps[..|ps| - 1]);
      var p := ps[|ps| - 1];
      forall k | 0 <= k < |ParamPairs(p)| ensures !Contains(ParamPairs(p)[k], "&") {
        match p.value
        case Scalar(v) => PairShape(p.key, v);
        case List(items) => PairShape(p.key, items[k]);
      }
      assert Pairs(ps) == Pairs(ps[..|ps| - 1]) + ParamPairs(p);
    }
  }

  /** There are as many pairs as scalars plus array elements; an empty array yields none. */
  lemma {:induction false} PairsCounted(ps: Params)
    ensures |Pairs(ps)| == PairCount(ps)
  {
    if ps != [] {
      PairsCounted(ps[..|ps| - 1]);
    }
  }

  /** The query string splits on '&' back into exactly the emitted pairs. */
  lemma QueryStringSplits(ps: Params)
    requires PairCount(ps) > 0
    ensures Split(QueryString(ps), "&") == Pairs(ps)
  {
    PairsCounted(ps);
    PairsLackAmpersand(ps);
    SplitJoin(Pairs(ps), "&");
  }

  // ----- ezekia-request -----

  const FieldsKey := "fields[]"

  /** A non-empty `fieldsArray` becomes `params['fields[]']`, creating `params` if absent. */
  function MergeFieldsArray(params: Option<Params>, fieldsArray: Option<seq<string>>): (r: Option<Params>)
    ensures fieldsArray.Some? && fieldsArray.value != [] ==>
      r.Some? && Get(r.value, FieldsKey) == Some(List(fieldsArray.value))
      && forall k :: k != FieldsKey ==> Get(r.value, k) == Get(params.GetOr([]), k)
    ensures !(fieldsArray.Some? && fieldsArray.value != []) ==> r == params
  {
    if fieldsArray.Some? && fieldsArray.value != [] then Some(Set(params.GetOr([]), FieldsKey, List(fieldsArray.value)))
    else params
  }

  const EzekiaStoreKey := "ezekiaApiKey"
  const OpenAIStoreKey := "openaiApiKey"
  const EzekiaEnvVar := "EZEKIA_API_KEY"
  const OpenAIEnvVar := "OPENAI_API_KEY"
  const BaseUrl := "https://ezekia.com/api"
  const KeyNotConfigured := "Ezekia API key not configured"

  /** `m.get(k)` on the store or `process.env[k]`, with "" for a missing entry. */
  function Entry(m: map<string, string>, k: string): string
  {
    if k in m then m[k] else ""
  }

  /** What axios is asked to send. */
  datatype HttpRequest = HttpRequest(httpMethod: string, url: string, authorization: string, query: string, data: string)

  /**
   * How the transport settles: a response body, or a failure carrying the response body's
   * `message` ("" when there is none) and the error's own message.
   */
  datatype Outcome = Response(body: string) | Failure(responseMessage: string, errorMessage: string)

  /** `error.response?.data?.message || error.message || 'Failed to fetch data from Ezekia'` */
  function FailureMessage(responseMessage: string, errorMessage: string): (m: string)
    ensures m != ""
    ensures responseMessage != "" ==> m == responseMessage
    ensures responseMessage == "" && errorMessage != "" ==> m == errorMessage
    ensures responseMessage == "" && errorMessage == "" ==> m == FetchFailed
  {
    if responseMessage != "" then responseMessage else if errorMessage != "" then errorMessage else FetchFailed
  }

  /** The query for possibly absent params: no params, no query string. */
  function QueryOf(params: Option<Params>): string
  {
    match params
    case None => ""
    case Some(ps) => QueryString(ps)
  }

  /** `store.get('ezekiaApiKey') || process.env.EZEKIA_API_KEY || ''` */
  function ResolvedKey(entries: map<string, string>, env: map<string, string>): (key: string)
    ensures Entry(entries, EzekiaStoreKey) != "" ==> key == Entry(entries, EzekiaStoreKey)
    ensures Entry(entries, EzekiaStoreKey) == "" ==> key == Entry(env, EzekiaEnvVar)
  {
    if Entry(entries, EzekiaStoreKey) != "" then Entry(entries, EzekiaStoreKey) else Entry(env, EzekiaEnvVar)
  }

  /** The request for a payload under a key: bearer header, URL under the base, serialized params. */
  function RequestFor(payload: RequestPayload, key: string): HttpRequest
  {
    HttpRequest(payload.httpMethod, BaseUrl + "/" + payload.endpoint, "Bearer " + key,
                QueryOf(MergeFieldsArray(payload.params, payload.fieldsArray)), payload.data)
  }

  /** The handler's reply for a settled transport call. */
  function ReplyFor(outcome: Outcome): Reply<string>
  {
    match outcome
    case Response(body) => Data(body)
    case Failure(rm, em) => ErrorReply(FailureMessage(rm, em))
  }

  /**
   * The `ezekia-request` handler. The stored key wins over the environment's; without either
   * no request is made. `send` is the network. The reply has the shape `request` in the
   * Ezekia client expects: the body, or `{error: true, message}`.
   */
  method HandleEzekiaRequest(store: KeyStore, env: map<string, string>, payload: RequestPayload, send: HttpRequest -> Outcome)
    returns (reply: Reply<string>, sent: Option<HttpRequest>)
    ensures ResolvedKey(store.entries, env) == "" ==> reply == ErrorReply(KeyNotConfigured) && sent == None
    ensures ResolvedKey(store.entries, env) != "" ==>
      sent == Some(RequestFor(payload, ResolvedKey(store.entries, env))) && reply == ReplyFor(send(sent.value))
  {
    var key := store.Get(EzekiaStoreKey);
    if key == "" {
      key := Entry(env, EzekiaEnvVar);
    }
    assert key == ResolvedKey(store.entries, env);
    if key == "" {
      return ErrorReply(KeyNotConfigured), None;
    }
    var params := MergeFieldsArray(payload.params, payload.fieldsArray);
    var query := "";
    if params.Some? {
      query := SerializeParams(params.value);
    }
    assert query == QueryOf(params);
    var request := HttpRequest(payload.httpMethod, BaseUrl + "/" + payload.endpoint, "Bearer " + key, query, payload.data);
    assert request == RequestFor(payload, key);
    sent := Some(request);
    var outcome := send(request);
    if outcome.Response? {
      reply := Data(outcome.body);
    } else {
      reply := ErrorReply(FailureMessage(outcome.responseMessage, outcome.errorMessage));
    }
  }

  // ----- get-api-keys / save-api-keys -----

  /** One key of `get-api-keys`: a stored value, else the environment's, written back when non-empty. */
  function FillKey(m: map<string, string>, env: map<string, string>, storeKey: string, envVar: string): map<string, string>
  {
    if Entry(m, storeKey) == "" && Entry(env, envVar) != "" then m[storeKey := env[envVar]] else m
  }

  /** The store after `get-api-keys`. */
  function Filled(m: map<string, string>, env: map<string, string>): map<string, string>
  {
    FillKey(FillKey(m, env, EzekiaStoreKey, EzekiaEnvVar), env, OpenAIStoreKey, OpenAIEnvVar)
  }

  /** The electron-store holding the two keys. */
  class KeyStore {
    var entries: map<string, string>

    constructor(initial: map<string, string>)
      ensures entries == initial
    {
      entries := initial;
    }

    /** `store.get(key, '')` */
    function Get(key: string): string
      reads this
    {
      Entry(entries, key)
    }

    /** `get-api-keys`: each key from the store, else from the environment, saving what it found. */
    method GetApiKeys(env: map<string, string>) returns (keys: ApiKeys)
      modifies this
      ensures entries == Filled(old(entries), env)
      ensures keys == ApiKeys(Entry(entries, EzekiaStoreKey), Entry(entries, OpenAIStoreKey))
    {
      var ezekia := Get(EzekiaStoreKey);
      var openai := Get(OpenAIStoreKey);
      if ezekia == "" {
        ezekia := Entry(env, EzekiaEnvVar);
        if ezekia != "" {
          entries := entries[EzekiaStoreKey := ezekia];
        }
      }
      if openai == "" {
        openai := Entry(env, OpenAIEnvVar);
        if openai != "" {
          entries := entries[OpenAIStoreKey := openai];
        }
      }
      keys := ApiKeys(ezekia, openai);
    }

    /** `save-api-keys`: write both keys, read them back, and succeed when both match. */
    method SaveApiKeys(keys: ApiKeys) returns (success: bool, message: string)
      modifies this
      ensures entries == old(entries)[EzekiaStoreKey := keys.ezekiaApiKey][OpenAIStoreKey := keys.openaiApiKey]
      ensures success <==> Get(EzekiaStoreKey) == keys.ezekiaApiKey && Get(OpenAIStoreKey) == keys.openaiApiKey
      ensures success && message == ""
    {
      entries := entries[EzekiaStoreKey := keys.ezekiaApiKey];
      entries := entries[OpenAIStoreKey := keys.openaiApiKey];
      var savedEzekia := Get(EzekiaStoreKey);
      var savedOpenAI := Get(OpenAIStoreKey);
      success := savedEzekia == keys.ezekiaApiKey && savedOpenAI == keys.openaiApiKey;
      message := if success then "" else "Keys were not saved correctly to store";
    }
  }

  /**
   * Per key: a stored value is kept and returned; an empty store takes a non-empty environment
   * value; with both empty the key stays absent and reads as "".
   */
  lemma FillKeyCases(m: map<string, string>, env: map<string, string>, storeKey: string, envVar: string)
    ensures Entry(m, storeKey) != "" ==> FillKey(m, env, storeKey, envVar) == m
    ensures Entry(m, storeKey) == "" && Entry(env, envVar) != "" ==>
      Entry(FillKey(m, env, storeKey, envVar), storeKey) == Entry(env, envVar)
      && forall k :: k != storeKey ==> Entry(FillKey(m, env, storeKey, envVar), k) == Entry(m, k)
    ensures Entry(m, storeKey) == "" && Entry(env, envVar) == "" ==> FillKey(m, env, storeKey, envVar) == m
  {
  }

  /** A second `get-api-keys` changes nothing and returns the same keys. */
  lemma FilledIdempotent(m: map<string, string>, env: map<string, string>)
    ensures Filled(Filled(m, env), env) == Filled(m, env)
  {
    var once := Filled(m, env);
    assert Entry(once, EzekiaStoreKey) != "" || Entry(env, EzekiaEnvVar) == "";
    assert Entry(once, OpenAIStoreKey) != "" || Entry(env, OpenAIEnvVar) == "";
  }

  /** The stored key has priority; the environment only fills an empty store. */
  lemma StoredKeyWins(m: map<string, string>, env: map<string, string>)
    requires Entry(m, EzekiaStoreKey) != ""
    ensures Entry(Filled(m, env), EzekiaStoreKey) == Entry(m, EzekiaStoreKey)
  {
  }

  // ----- Default file names -----

  predicate AsciiAlnum(c: char)
  {
    ('A' <= c <= 'Z') || ('a' <= c <= 'z') || ('0' <= c <= '9')
  }

  /** The number of UTF-16 code units of `s`. */
  function Utf16Length(s: string): nat
  {
    if s == "" then 0 else (if s[0] as int > 0xFFFF then 2 else 1) + Utf16Length(s[1..])
  }

  /** `name.replace(/[^a-z0-9]/gi, '_')`: every UTF-16 code unit outside [A-Za-z0-9] becomes '_'. */
  function Sanitize(s: string): (r: string)
    ensures |r| == Utf16Length(s)
    ensures forall k :: 0 <= k < |r| ==> AsciiAlnum(r[k]) || r[k] == '_'
  {
    if s == "" then ""
    else (if AsciiAlnum(s[0]) then [s[0]] else if s[0] as int > 0xFFFF then "__" else "_") + Sanitize(s[1..])
  }

  /** Letters and digits keep their place; without characters beyond the BMP the length is kept. */
  lemma {:induction false} SanitizeKeeps(s: string)
    requires forall k :: 0 <= k < |s| ==> s[k] as int <= 0xFFFF
    ensures |Sanitize(s)| == |s|
    ensures forall k :: 0 <= k < |s| ==> Sanitize(s)[k] == if AsciiAlnum(s[k]) then s[k] else '_'
  {
    if s != "" {
      SanitizeKeeps(s[1..]);
      var r := Sanitize(s);
      forall k | 0 <= k < |s| ensures r[k] == if AsciiAlnum(s[k]) then s[k] else '_' {
        if k > 0 {
          assert r[k] == Sanitize(s[1..])[k - 1];
        }
      }
    }
  }

  /** Sanitizing a sanitized name changes nothing. */
  lemma SanitizeIdempotent(s: string)
    ensures Sanitize(Sanitize(s)) == Sanitize(s)
  {
    var r := Sanitize(s);
    SanitizeKeeps(r);
  }

  /** The default path's file name in `save-report` (Markdown) and `save-pdf-from-temp` (PDF). */
  function DefaultFileName(candidateName: string, pdf: bool): (name: string)
    ensures |name| == Utf16Length(candidateName) + (if pdf then 11 else 10)
    ensures forall k :: 0 <= k < Utf16Length(candidateName) ==> AsciiAlnum(name[k]) || name[k] == '_'
    ensures name[Utf16Length(candidateName)..] == if pdf then "_Report.pdf" else "_Report.md"
  {
    Sanitize(candidateName) + (if pdf then "_Report.pdf" else "_Report.md")
  }
}
