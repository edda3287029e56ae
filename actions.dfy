/**
 * The four actions of the v2 keys protocol and the request each one builds
 * (`getAction`, `waitAction`, `setAction` and `deleteAction`, each with its
 * `HTTPRequest` method), followed by how the store reads those parameters back.
 * The round-trip lemmas at the end show that nothing is lost: a parameter at its
 * default is left out, and the store reads an absent parameter as that default.
 */
module Actions {
  import opened Wrappers
  import opened Strconv
  import opened KeysModel

  const FormContentType: string := "application/x-www-form-urlencoded"

  /** Query parameters and form fields, one value per name. */
  type Params = map<string, string>

  /** The parts of the endpoint URL a builder reads: its path and its already parsed query. */
  datatype Endpoint = Endpoint(path: string, query: Params)

  /** The result of `path.Join(endpoint path, prefix, key)`, kept as a free term; unlike `path.Join` it is injective, so nothing relies on two terms being different paths. */
  datatype KeysPath = KeysPath(endpointPath: string, prefix: string, key: string)

  /** `v2KeysURL`: where a key lives below an endpoint. */
  function V2KeysPath(ep: Endpoint, prefix: string, key: string): KeysPath {
    KeysPath(ep.path, prefix, key)
  }

  /** A request descriptor: method (`verb`), path, query, form body (`None`: no body) and Content-Type. */
  datatype Request = Request(verb: string, path: KeysPath, query: Params, form: Option<Params>, contentType: Option<string>)

  /** The closed set of actions the client dispatches. */
  datatype Action =
    | GetAction(prefix: string, key: string, recursive: bool)
    | WaitAction(prefix: string, key: string, waitIndex: Uint64, recursive: bool)
    | SetAction(prefix: string, key: string, value: string, prevValue: string, prevIndex: Uint64, prevExist: PrevExistType, ttl: Duration)
    | DeleteAction(prefix: string, key: string, value: string, prevValue: string, prevIndex: Uint64, recursive: bool)

  /** The type of the watcher's cursor. */
  type WaitAct = a: Action | a.WaitAction? witness WaitAction("", "", 0, false)

  /** The parameter `k` is present with value `v`. */
  predicate Sets(q: Params, k: string, v: string) {
    k in q && q[k] == v
  }

  /** The parameter `k` is exactly as the endpoint's own query had it. */
  predicate Keeps(q0: Params, q: Params, k: string) {
    (k in q <==> k in q0) && (k in q0 ==> q[k] == q0[k])
  }

  /** Every parameter outside `ks` is as the endpoint's own query had it. */
  ghost predicate KeepsOthers(q0: Params, q: Params, ks: set<string>) {
    forall k :: k !in ks ==> Keeps(q0, q, k)
  }

  /** `if cond { params.Set(k, v) }`. */
  function SetIf(q: Params, cond: bool, k: string, v: string): (r: Params)
    ensures cond ==> Sets(r, k, v)
    ensures !cond ==> r == q
    ensures KeepsOthers(q, r, {k})
  {
    if cond then q[k := v] else q
  }

  /** `getAction.HTTPRequest`. */
  function GetRequest(a: Action, ep: Endpoint): (r: Request)
    requires a.GetAction?
    ensures r.verb == "GET" && r.path == V2KeysPath(ep, a.prefix, a.key)
    ensures r.form == None && r.contentType == None
    ensures Sets(r.query, "recursive", FormatBool(a.recursive))
    ensures KeepsOthers(ep.query, r.query, {"recursive"})
  {
    Request("GET", V2KeysPath(ep, a.prefix, a.key),
            ep.query["recursive" := FormatBool(a.recursive)], None, None)
  }

  /** `waitAction.HTTPRequest`: a long poll from `waitIndex` on. */
  function WaitRequest(a: Action, ep: Endpoint): (r: Request)
    requires a.WaitAction?
    ensures r.verb == "GET" && r.path == V2KeysPath(ep, a.prefix, a.key)
    ensures r.form == None && r.contentType == None
    ensures Sets(r.query, "wait", "true")
    ensures Sets(r.query, "waitIndex", FormatUint(a.waitIndex))
    ensures Sets(r.query, "recursive", FormatBool(a.recursive))
    ensures KeepsOthers(ep.query, r.query, {"wait", "waitIndex", "recursive"})
  {
    var q := ep.query["wait" := "true"]["waitIndex" := FormatUint(a.waitIndex)]["recursive" := FormatBool(a.recursive)];
    Request("GET", V2KeysPath(ep, a.prefix, a.key), q, None, None)
  }

  /** Whole seconds of a positive TTL, rounded down. */
  function TtlSeconds(ttl: Duration): (s: nat)
    requires ttl > 0
    ensures s * NanosPerSecond <= ttl < (s + 1) * NanosPerSecond
  {
    ttl / NanosPerSecond
  }

  /**
   * `setAction.HTTPRequest`: a precondition is sent only when it is not at its
   * default, the form always carries `value` and carries `ttl` only for a
   * positive TTL.
   */
  function SetRequest(a: Action, ep: Endpoint): (r: Request)
    requires a.SetAction?
    ensures r.verb == "PUT" && r.path == V2KeysPath(ep, a.prefix, a.key)
    ensures r.contentType == Some(FormContentType)
    ensures a.prevValue != "" ==> Sets(r.query, "prevValue", a.prevValue)
    ensures a.prevValue == "" ==> Keeps(ep.query, r.query, "prevValue")
    ensures a.prevIndex != 0 ==> Sets(r.query, "prevIndex", FormatUint(a.prevIndex))
    ensures a.prevIndex == 0 ==> Keeps(ep.query, r.query, "prevIndex")
    ensures a.prevExist != PrevIgnore ==> Sets(r.query, "prevExist", a.prevExist)
    ensures a.prevExist == PrevIgnore ==> Keeps(ep.query, r.query, "prevExist")
    ensures KeepsOthers(ep.query, r.query, {"prevValue", "prevIndex", "prevExist"})
    ensures r.form.Some? && r.form.value.Keys <= {"value", "ttl"}
    ensures Sets(r.form.value, "value", a.value)
    ensures "ttl" in r.form.value <==> a.ttl > 0
    ensures a.ttl > 0 ==> r.form.value["ttl"] == FormatUint(TtlSeconds(a.ttl))
  {
    var q1 := SetIf(ep.query, a.prevValue != "", "prevValue", a.prevValue);
    var q2 := SetIf(q1, a.prevIndex != 0, "prevIndex", FormatUint(a.prevIndex));
    var q3 := SetIf(q2, a.prevExist != PrevIgnore, "prevExist", a.prevExist);
    var form := map["value" := a.value];
    var form' := if a.ttl > 0 then form["ttl" := FormatUint(TtlSeconds(a.ttl))] else form;
    Request("PUT", V2KeysPath(ep, a.prefix, a.key), q3, Some(form'), Some(FormContentType))
  }

  /**
   * `deleteAction.HTTPRequest`: the same omission rule as a set for the value and
   * index preconditions, `recursive=true` only when asked for, no body, and the
   * form Content-Type all the same.
   */
  function DeleteRequest(a: Action, ep: Endpoint): (r: Request)
    requires a.DeleteAction?
    ensures r.verb == "DELETE" && r.path == V2KeysPath(ep, a.prefix, a.key)
    ensures r.form == None && r.contentType == Some(FormContentType)
    ensures a.prevValue != "" ==> Sets(r.query, "prevValue", a.prevValue)
    ensures a.prevValue == "" ==> Keeps(ep.query, r.query, "prevValue")
    ensures a.prevIndex != 0 ==> Sets(r.query, "prevIndex", FormatUint(a.prevIndex))
    ensures a.prevIndex == 0 ==> Keeps(ep.query, r.query, "prevIndex")
    ensures a.recursive ==> Sets(r.query, "recursive", "true")
    ensures !a.recursive ==> Keeps(ep.query, r.query, "recursive")
    ensures KeepsOthers(ep.query, r.query, {"prevValue", "prevIndex", "recursive"})
  {
    var q1 := SetIf(ep.query, a.prevValue != "", "prevValue", a.prevValue);
    var q2 := SetIf(q1, a.prevIndex != 0, "prevIndex", FormatUint(a.prevIndex));
    var q3 := SetIf(q2, a.recursive, "recursive", "true");
    Request("DELETE", V2KeysPath(ep, a.prefix, a.key), q3, None, Some(FormContentType))
  }

  /** The `HTTPRequest` method of whichever action is dispatched. */
  function HTTPRequest(a: Action, ep: Endpoint): (r: Request)
    ensures r.path == V2KeysPath(ep, a.prefix, a.key)
    ensures r.verb == (if a.SetAction? then "PUT" else if a.DeleteAction? then "DELETE" else "GET")
    ensures r.form.Some? <==> a.SetAction?
  {
    match a
    case GetAction(_, _, _) => GetRequest(a, ep)
    case WaitAction(_, _, _, _) => WaitRequest(a, ep)
    case SetAction(_, _, _, _, _, _, _) => SetRequest(a, ep)
    case DeleteAction(_, _, _, _, _, _) => DeleteRequest(a, ep)
  }

  // How the store reads a request back: an absent parameter means "no constraint".

  /** A textual parameter, `default` when absent. */
  function ParamOr(q: Params, k: string, default: string): string {
    if k in q then q[k] else default
  }

  /** An index parameter, 0 when absent. */
  function IndexParam(q: Params, k: string): Result<Uint64, NumError> {
    if k in q then ParseUint(q[k]) else Ok(0)
  }

  /**
   * The preconditions of a set request are read back exactly as given, each
   * one present exactly when it is not at its default; with one of the three
   * named existence constants, `prevExist` is "true" or "false".
   */
  lemma SetQueryRoundTrip(a: Action, ep: Endpoint)
    requires a.SetAction?
    requires "prevValue" !in ep.query && "prevIndex" !in ep.query && "prevExist" !in ep.query
    ensures "prevValue" in SetRequest(a, ep).query <==> a.prevValue != ""
    ensures "prevIndex" in SetRequest(a, ep).query <==> a.prevIndex != 0
    ensures "prevExist" in SetRequest(a, ep).query <==> a.prevExist != PrevIgnore
    ensures ParamOr(SetRequest(a, ep).query, "prevValue", "") == a.prevValue
    ensures IndexParam(SetRequest(a, ep).query, "prevIndex") == Ok(a.prevIndex)
    ensures ParamOr(SetRequest(a, ep).query, "prevExist", PrevIgnore) == a.prevExist
    ensures a.prevExist in {PrevIgnore, PrevExist, PrevNoExist} && "prevExist" in SetRequest(a, ep).query ==>
              SetRequest(a, ep).query["prevExist"] in {"true", "false"}
  {
    if a.prevIndex != 0 {
      ParseFormatRoundTrip(a.prevIndex);
    }
  }

  /**
   * The form of a set request gives back the value and the TTL in whole
   * seconds, and no TTL at all when it is not positive. A positive TTL under
   * one second is sent as "ttl=0".
   */
  lemma SetFormRoundTrip(a: Action, ep: Endpoint)
    requires a.SetAction?
    ensures ParamOr(SetRequest(a, ep).form.value, "value", "") == a.value
    ensures IndexParam(SetRequest(a, ep).form.value, "ttl") == Ok(if a.ttl > 0 then a.ttl / NanosPerSecond else 0)
    ensures 0 < a.ttl < NanosPerSecond ==> SetRequest(a, ep).form.value["ttl"] == "0"
  {
    if a.ttl > 0 {
      ParseFormatRoundTrip(TtlSeconds(a.ttl));
    }
  }

  /**
   * The preconditions of a delete request are read back exactly as given;
   * `recursive` is present exactly when asked for, and then is "true"; no
   * `prevExist` is ever added.
   */
  lemma DeleteQueryRoundTrip(a: Action, ep: Endpoint)
    requires a.DeleteAction?
    requires "prevValue" !in ep.query && "prevIndex" !in ep.query && "recursive" !in ep.query && "prevExist" !in ep.query
    ensures "prevValue" in DeleteRequest(a, ep).query <==> a.prevValue != ""
    ensures "prevIndex" in DeleteRequest(a, ep).query <==> a.prevIndex != 0
    ensures "recursive" in DeleteRequest(a, ep).query <==> a.recursive
    ensures "prevExist" !in DeleteRequest(a, ep).query
    ensures ParamOr(DeleteRequest(a, ep).query, "prevValue", "") == a.prevValue
    ensures IndexParam(DeleteRequest(a, ep).query, "prevIndex") == Ok(a.prevIndex)
    ensures ParamOr(DeleteRequest(a, ep).query, "recursive", "false") == FormatBool(a.recursive)
  {
    if a.prevIndex != 0 {
      ParseFormatRoundTrip(a.prevIndex);
    }
  }

  /** A wait request always asks to wait, and its index and scope read back as given. */
  lemma WaitQueryRoundTrip(a: Action, ep: Endpoint)
    requires a.WaitAction?
    ensures ParamOr(WaitRequest(a, ep).query, "wait", "") == "true"
    ensures IndexParam(WaitRequest(a, ep).query, "waitIndex") == Ok(a.waitIndex)
    ensures ParamOr(WaitRequest(a, ep).query, "recursive", "") == FormatBool(a.recursive)
  {
    ParseFormatRoundTrip(a.waitIndex);
  }
}
