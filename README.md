# etcd v2 keys client, modelled in Dafny

This project models the client half of etcd's v2 keys protocol, `client/keys.go`.
The model has three parts:

- **Request builders.** `getAction`, `waitAction`, `setAction` and `deleteAction` each have an `HTTPRequest` method. Each turns a key and an option bag into a request descriptor: verb, path, query parameters, form body and Content-Type.
- **The facade.** `Set`, `Create`, `Update`, `Delete`, `Get`, `RGet` and `Watcher` on `httpKeysAPI`. Each maps its options to one action, sends it through the transport and decodes the reply.
- **Decoding and the watch cursor.** `unmarshalHTTPResponse`, `unmarshalSuccessfulResponse` and `unmarshalErrorResponse` decode a reply. `httpWatcher` is a long-poll cursor whose one mutable field, `nextWait`, advances after every delivered event.

Files and modules:

| file | module | what it holds |
|---|---|---|
| wrappers.dfy | `Wrappers` | `Option`, `Result` |
| strconv.dfy | `Strconv` | Go's `FormatUint`, `ParseUint` (base 10, 64 bits) and `FormatBool`, proved against `ValueOf`, the value of a digit string |
| keys_model.dfy | `KeysModel` | `PrevExistType` and its constants, option structs, `Node`, `Response`, errors, transport replies |
| actions.dfy | `Actions` | the action variants, the four builders, how the store reads parameters back, round-trip lemmas |
| decode.dfy | `Decode` | status classification and the `X-Etcd-Index` rule |
| keys_api.dfy | `KeysApi` | the facade; the transport `client.Do` is a function from actions to replies |
| watcher.dfy | `Watch` | class `Watcher` with the `nextWait` field and `Next`, plus lemmas about a run of `Next` calls |

How the model is built:

- **Builders** are functions from an action and the endpoint to a `Request`. The query and the form are `map<string, string>`.
- **The endpoint's own query.** Go's builders start from `u.Query()`, the query already on the endpoint URL. So every builder contract says which parameters it sets and that all others are as the endpoint had them (`Sets`, `Keeps`, `KeepsOthers`). The round-trip lemmas assume the endpoint query does not already hold the parameters a builder controls. Under that assumption they state the exact "present if and only if not at its default" rules. They also show that reading a request back the way the store does (`ParamOr`, `IndexParam`, where an absent parameter means the default) returns the options exactly.
- **The watcher's `Next`** takes the transport, as it answers that one call, as a function argument. Its contract states three things: it sends the current `nextWait`, it returns the decoded reply, and the new cursor is `Advance(old cursor, result)`. `CursorTracksLastEvent` extends this to any run of replies. After the run, the wait index is one past the latest delivered event, or the start index if no event was delivered. Prefix, key and scope never change.

Where this model follows the code rather than the usual prose description of the client:

- **`Response.Index`.** With an absent or empty `X-Etcd-Index` header, `Index` keeps whatever JSON decoding of the body put there. It is not necessarily 0: the field has no JSON tag, so a body field named `index` fills it.
- **`PrevExistType`** is an open Go string type. `prevExist` is "true" or "false" only when the caller uses one of the three named constants. Any other string is sent as it is.
- **A positive TTL under one second** is sent as `ttl=0`. Whole seconds are rounded down, and the "TTL > 0" test is made on the nanosecond value.
- **Index wrap-around.** `ModifiedIndex + 1` wraps in `uint64`. An event at index 2^64-1 therefore moves the cursor to 0, which means "from the current index".

## Model

| member | source | states |
|---|---|---|
| `Strconv.FormatUint` | client/keys.go:359 | the rendering of an index is a canonical digit string (no leading zero) whose decimal value is the index |
| `Strconv.FormatBool` | client/keys.go:314 | booleans render as exactly "true" or "false", "true" iff the flag holds |
| `Strconv.ParseUintCorrect` | client/keys.go:427 | `ParseUint(s, 10, 64)` succeeds iff `s` is a non-empty digit string whose value fits in 64 bits, and returns that value; an over-large digit string is a range error |
| `Strconv.ParseFormatRoundTrip` | client/keys.go:359 | every 64-bit index parses back from its rendering |
| `Strconv.FormatParseRoundTrip` | client/keys.go:427 | a canonical digit string that parses is exactly the rendering of its value |
| `Strconv.CanonicalUnique` | client/keys.go:427 | two canonical digit strings with the same value are equal |
| `Actions.SetIf` | client/keys.go:355-363 | a conditional `params.Set` adds the parameter when its condition holds and leaves every other parameter as it was |
| `Actions.GetRequest` | client/keys.go:310-319 | GET at the joined path, no body and no Content-Type; `recursive` set to "true"/"false", and it is the only parameter added |
| `Actions.WaitRequest` | client/keys.go:328-339 | GET with `wait=true`, `waitIndex=<decimal index>` and `recursive=<bool>`, no body; nothing else added |
| `Actions.TtlSeconds` | client/keys.go:368-369 | a positive TTL becomes its whole seconds, rounded down |
| `Actions.SetRequest` | client/keys.go:351-377 | PUT with the form Content-Type; `prevValue`, `prevIndex`, `prevExist` are set only when not empty, not 0, not ignore, and otherwise left as the endpoint had them; the form always has `value` and has `ttl` exactly for a positive TTL |
| `Actions.DeleteRequest` | client/keys.go:388-407 | DELETE with no body but the form Content-Type; the same omission rule for `prevValue` and `prevIndex`; `recursive=true` only when recursive, never `recursive=false` |
| `Actions.HTTPRequest` | client/keys.go:299-302 | for every action the path depends only on the endpoint path, prefix and key, never on the options; PUT only for set, DELETE only for delete; a body only for set |
| `Actions.SetQueryRoundTrip` | client/keys.go:354-364 | each set precondition is present iff it is not at its default, and the store reads all three back exactly; with a named existence constant `prevExist` is "true" or "false" |
| `Actions.SetFormRoundTrip` | client/keys.go:366-371 | the form reads back the value and the TTL in whole seconds (none for a non-positive TTL); a sub-second TTL is sent as "0" |
| `Actions.DeleteQueryRoundTrip` | client/keys.go:391-401 | delete preconditions are present iff not at their default and read back exactly; `recursive` is present iff recursive; `prevExist` is never sent |
| `Actions.WaitQueryRoundTrip` | client/keys.go:331-334 | a wait request always asks to wait, and its index and scope read back exactly |
| `Decode.HeaderGet` | client/keys.go:426 | a header reads as its first value, or "" when it is absent or has no value |
| `Decode.UnmarshalErrorResponse` | client/keys.go:435-450 | 404 iff key-not-found, 412 iff key-exists, 500 iff no-leader, 504 iff timeout; every other code iff an unrecognized-status error carrying that code |
| `Decode.UnmarshalSuccessfulResponse` | client/keys.go:420-433 | a malformed body is a decode error; an absent or empty index header leaves the decoded body unchanged; a non-empty header succeeds iff it is a decimal that fits in 64 bits, and then becomes the index |
| `Decode.UnmarshalHTTPResponse` | client/keys.go:409-418 | 200 and 201 go to the success decoder, every other code to the error table; only 200 and 201 ever yield a response |
| `Decode.ErrorsDistinguishCause` | client/keys.go:409-450 | a status-derived error arises exactly for codes other than 200 and 201; decoding never produces a transport error |
| `Decode.IndexHeaderExample` | client/keys.go:426-428 | a 200 reply with header "42" has index 42 |
| `KeysApi.NewKeysAPI` | client/keys.go:44-46 | the default facade uses the caller's client and is rooted at "/v2/keys" |
| `KeysApi.Receive` | client/keys.go:191-196 | a transport failure is returned verbatim; a reply is decoded; a response only for a 200 or 201 reply |
| `KeysApi.Set` | client/keys.go:177-197 | sends one set action with prefix, key, value and the options, or every option at its default when they are nil |
| `KeysApi.Create` | client/keys.go:199-201 | sends a set action with `prevExist` "false" and every other option at its default |
| `KeysApi.Update` | client/keys.go:203-205 | sends a set action with `prevExist` "true" and every other option at its default |
| `KeysApi.Delete` | client/keys.go:207-225 | sends one delete action with the options, or every option at its default when they are nil |
| `KeysApi.Get` | client/keys.go:227-240 | sends a non-recursive get of the key |
| `KeysApi.RGet` | client/keys.go:242-255 | sends a recursive get of the key |
| `KeysApi.NilOptionsAreZero` | client/keys.go:184-189 | nil set or delete options behave as all-zero option structs |
| `KeysApi.CreateUpdateAreSet` | client/keys.go:199-205 | `Create` and `Update` are `Set` with a fixed existence precondition and zero options otherwise |
| `KeysApi.CreateUpdateRequests` | client/keys.go:199-205 | `Create`'s request carries `prevExist=false`, `Update`'s `prevExist=true`; neither carries a value or index precondition, and the form is the value alone |
| `KeysApi.GetRGetRequests` | client/keys.go:227-255 | the `Get` and `RGet` requests of one key differ only in `recursive` ("false" vs "true"), which is the only parameter they add |
| `Watch.NextWaitIndex` | client/keys.go:290 | the next wait index is the event's modified index plus one, wrapping to 0 after 2^64-1 |
| `Watch.AdvancePastSeven` | client/keys.go:290 | after an event at modified index 7 the next wait request carries index 8 |
| `Watch.WatchStart` | client/keys.go:257-272 | a new watcher waits from the option's index with the option's scope, or from 0 non-recursively without options |
| `Watch.WatchNilOptionsAreZero` | client/keys.go:263-266 | nil watcher options start where all-zero options do |
| `Watch.Advance` | client/keys.go:285-290 | after a delivered event only the wait index moves, to just past the event; after a failure nothing moves |
| `Watch.Watcher.constructor` | client/keys.go:268-271 | the cursor starts at the watcher's first wait action |
| `Watch.Watcher.Next` | client/keys.go:279-292 | sends the current cursor, returns the decoded reply, advances the cursor only on success, and leaves it unchanged on a transport or decode error |
| `Watch.CursorTracksLastEvent` | client/keys.go:279-292 | after any run of replies, prefix, key and scope are unchanged, and the wait index is one past the latest delivered event (or the start index if none) |

## Left out

- The transport (`client.Do`, endpoint choice, `http.NewRequest`, URL rendering) is not modelled. The facade takes it as a function from actions to replies, and `Next` takes it per call. The `client` field of `httpWatcher` is therefore not a field of the class.
- `context.Context` cancellation is a kind of transport failure (`Cancelled`).
- JSON decoding of a body (`encoding/json`) is a library. A reply carries its decoding result, either a `Response` or `Malformed`.
- Node trees are taken as decoded. Round-tripping them through JSON is not modelled, and neither are nil entries in `Nodes`.
- `path.Join` and `path.Clean` are library code. The joined path is the free term `KeysPath(endpoint path, prefix, key)`. That term is injective, which Go's `path.Join` is not: "/a" + "b" + "c" and "/a/b" + "" + "c" join to the same path. So nothing may rely on two distinct terms being distinct paths, and no lemma here does.
- The endpoint URL's scheme, host and user pass through the builders unchanged and are not modelled. Its query is taken as already parsed, with one value per name.
- `url.Values` is multi-valued. The model uses single-valued maps, so repeated names in the endpoint query are out of scope, as are percent-encoding and key ordering in `Encode`.
- `TtlSeconds` converts through integer division. Go's `time.Duration.Seconds()` goes through a float64. The two agree except where float rounding of very large TTLs would change the whole seconds.
- `Node.String` is cosmetic formatting.
- `ErrKeyNoExist`, `ErrKeyExists`, `ErrNoLeader` and `ErrTimeout` are defined in another file of the client package, which is not part of this model. They are constructors of `Error`. The unrecognized-status error keeps its code, not its message text.
- `http.Header` lookups are assumed to use canonical keys. Key canonicalisation is not modelled.
- `Watch.Watcher.Next` requires that a reply which decodes to a response carries a node. Go dereferences `resp.Node` without a check and would panic on a nil node.
- The tree invariants of the keys API are not checked by the client, so they are not modelled: a leaf has a value and no children, `createdIndex <= modifiedIndex`, and a node's modified index is at most the response index.
- `deleteAction.Value` exists in the source but is never set or sent. It is kept in the datatype and always "".
- Concurrent calls to `Next` on one watcher are unsupported in the source and not modelled.
