/**
 * The keys API facade (`httpKeysAPI`): each operation maps its arguments and
 * options to one action, hands it to the transport and decodes the reply.
 * The transport (`client.Do`, with its endpoint choice and cancellation) is
 * the function `client` from actions to replies.
 */
module KeysApi {
  import opened Wrappers
  import opened KeysModel
  import opened Actions
  import opened Decode

  datatype KeysAPI = KeysAPI(client: Action -> Reply, prefix: string)

  /** `NewKeysAPI`: the facade over the caller's `client`, rooted at the default keys prefix. */
  function NewKeysAPI(client: Action -> Reply): (api: KeysAPI)
    ensures api.prefix == "/v2/keys"
    ensures api.client == client
  {
    KeysAPI(client, DefaultV2KeysPrefix)
  }

  /**
   * What every operation does with the transport's answer: a transport
   * failure is returned as it is, a reply is decoded, and only a 200 or 201
   * reply yields a response.
   */
  function Receive(reply: Reply): (r: Result<Response, Error>)
    ensures reply.TransportFailed? ==> r == Err(TransportError(reply.fault))
    ensures reply.Got? ==> r == UnmarshalHTTPResponse(reply.code, reply.header, reply.body)
    ensures r.Ok? ==> reply.Got? && reply.code in {StatusOK, StatusCreated}
  {
    match reply
    case TransportFailed(fault) => Err(TransportError(fault))
    case Got(code, header, body) => UnmarshalHTTPResponse(code, header, body)
  }

  /** `Set`: one set action carrying the options, or every option at its default when there are none. */
  function Set(api: KeysAPI, key: string, val: string, opts: Option<SetOptions>): (r: Result<Response, Error>)
    ensures var o := if opts.Some? then opts.value else ZeroSetOptions;
            r == Receive(api.client(SetAction(api.prefix, key, val, o.prevValue, o.prevIndex, o.prevExist, o.ttl)))
  {
    var act := SetAction(api.prefix, key, val, "", 0, PrevIgnore, 0);
    var act := if opts.Some? then
        act.(prevValue := opts.value.prevValue, prevIndex := opts.value.prevIndex,
             prevExist := opts.value.prevExist, ttl := opts.value.ttl)
      else act;
    Receive(api.client(act))
  }

  /** `Create`: a set that requires the key not to exist, every other option at its default. */
  function Create(api: KeysAPI, key: string, val: string): (r: Result<Response, Error>)
    ensures r == Receive(api.client(SetAction(api.prefix, key, val, "", 0, PrevNoExist, 0)))
  {
    Set(api, key, val, Some(SetOptions(prevValue := "", prevIndex := 0, prevExist := PrevNoExist, ttl := 0)))
  }

  /** `Update`: a set that requires the key to exist, every other option at its default. */
  function Update(api: KeysAPI, key: string, val: string): (r: Result<Response, Error>)
    ensures r == Receive(api.client(SetAction(api.prefix, key, val, "", 0, PrevExist, 0)))
  {
    Set(api, key, val, Some(SetOptions(prevValue := "", prevIndex := 0, prevExist := PrevExist, ttl := 0)))
  }

  /** `Delete`: one delete action carrying the options, or every option at its default when there are none. */
  function Delete(api: KeysAPI, key: string, opts: Option<DeleteOptions>): (r: Result<Response, Error>)
    ensures var o := if opts.Some? then opts.value else ZeroDeleteOptions;
            r == Receive(api.client(DeleteAction(api.prefix, key, "", o.prevValue, o.prevIndex, o.recursive)))
  {
    var act := DeleteAction(api.prefix, key, "", "", 0, false);
    var act := if opts.Some? then
        act.(prevValue := opts.value.prevValue, prevIndex := opts.value.prevIndex, recursive := opts.value.recursive)
      else act;
    Receive(api.client(act))
  }

  /** `Get`: a non-recursive get of the key. */
  function Get(api: KeysAPI, key: string): (r: Result<Response, Error>)
    ensures r == Receive(api.client(GetAction(api.prefix, key, false)))
  {
    var get := GetAction(prefix := api.prefix, key := key, recursive := false);
    Receive(api.client(get))
  }

  /** `RGet`: a recursive get of the key. */
  function RGet(api: KeysAPI, key: string): (r: Result<Response, Error>)
    ensures r == Receive(api.client(GetAction(api.prefix, key, true)))
  {
    var get := GetAction(prefix := api.prefix, key := key, recursive := true);
    Receive(api.client(get))
  }

  /** A nil option pointer behaves as an all-zero option struct. */
  lemma NilOptionsAreZero(api: KeysAPI, key: string, val: string)
    ensures Set(api, key, val, None) == Set(api, key, val, Some(ZeroSetOptions))
    ensures Delete(api, key, None) == Delete(api, key, Some(ZeroDeleteOptions))
  {
  }

  /** `Create` and `Update` are `Set` with a fixed existence precondition and nothing else. */
  lemma CreateUpdateAreSet(api: KeysAPI, key: string, val: string)
    ensures Create(api, key, val) == Set(api, key, val, Some(ZeroSetOptions.(prevExist := PrevNoExist)))
    ensures Update(api, key, val) == Set(api, key, val, Some(ZeroSetOptions.(prevExist := PrevExist)))
  {
  }

  /**
   * The request `Create` dispatches asks for "prevExist=false" and `Update`'s
   * for "prevExist=true"; neither sends a value or index precondition or a TTL.
   */
  lemma CreateUpdateRequests(prefix: string, key: string, val: string, ep: Endpoint)
    requires "prevValue" !in ep.query && "prevIndex" !in ep.query && "prevExist" !in ep.query
    ensures Sets(HTTPRequest(SetAction(prefix, key, val, "", 0, PrevNoExist, 0), ep).query, "prevExist", "false")
    ensures Sets(HTTPRequest(SetAction(prefix, key, val, "", 0, PrevExist, 0), ep).query, "prevExist", "true")
    ensures var r := HTTPRequest(SetAction(prefix, key, val, "", 0, PrevNoExist, 0), ep);
            "prevValue" !in r.query && "prevIndex" !in r.query && r.form == Some(map["value" := val])
    ensures var r := HTTPRequest(SetAction(prefix, key, val, "", 0, PrevExist, 0), ep);
            "prevValue" !in r.query && "prevIndex" !in r.query && r.form == Some(map["value" := val])
  {
  }

  /**
   * The requests of `Get` and `RGet` for the same key differ only in the value
   * of `recursive`, which is the only parameter either adds.
   */
  lemma GetRGetRequests(prefix: string, key: string, ep: Endpoint)
    ensures var g, rg := HTTPRequest(GetAction(prefix, key, false), ep), HTTPRequest(GetAction(prefix, key, true), ep);
            && g.verb == rg.verb == "GET" && g.path == rg.path && g.form == rg.form && g.contentType == rg.contentType
            && g.query["recursive"] == "false" && rg.query["recursive"] == "true"
            && g.query - {"recursive"} == rg.query - {"recursive"} == ep.query - {"recursive"}
            && g.query.Keys == rg.query.Keys == ep.query.Keys + {"recursive"}
  {
  }
}
