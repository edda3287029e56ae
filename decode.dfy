/**
 * Turning a reply into a `Response` or an error: the status-code switch of
 * `unmarshalHTTPResponse`, the error table of `unmarshalErrorResponse`, and
 * the `X-Etcd-Index` header rule of `unmarshalSuccessfulResponse`.
 */
module Decode {
  import opened Wrappers
  import opened Strconv
  import opened KeysModel

  const StatusOK: int := 200
  const StatusCreated: int := 201
  const StatusNotFound: int := 404
  const StatusPreconditionFailed: int := 412
  const StatusInternalServerError: int := 500
  const StatusGatewayTimeout: int := 504

  const IndexHeader: string := "X-Etcd-Index"

  /** `http.Header.Get` on a canonical key: the first value, or "" when there is none. */
  function HeaderGet(h: Header, k: string): (v: string)
    ensures k !in h || h[k] == [] ==> v == ""
    ensures k in h && h[k] != [] ==> v == h[k][0]
  {
    if k in h && |h[k]| > 0 then h[k][0] else ""
  }

  /**
   * `unmarshalErrorResponse`: four status codes have a named error (500 is
   * reported as "no leader", which is a guess about the cause); every other
   * code gives an unrecognized-status error that carries it.
   */
  function UnmarshalErrorResponse(code: int): (e: Error)
    ensures e == KeyNoExist <==> code == StatusNotFound
    ensures e == KeyExists <==> code == StatusPreconditionFailed
    ensures e == NoLeader <==> code == StatusInternalServerError
    ensures e == Timeout <==> code == StatusGatewayTimeout
    ensures e.UnrecognizedStatus? <==>
              code !in {StatusNotFound, StatusPreconditionFailed, StatusInternalServerError, StatusGatewayTimeout}
    ensures e.UnrecognizedStatus? ==> e.code == code
  {
    if code == StatusNotFound then KeyNoExist
    else if code == StatusPreconditionFailed then KeyExists
    else if code == StatusInternalServerError then NoLeader
    else if code == StatusGatewayTimeout then Timeout
    else UnrecognizedStatus(code)
  }

  /**
   * `unmarshalSuccessfulResponse`: a body that does not decode is an error; a
   * non-empty `X-Etcd-Index` header must be a decimal that fits in 64 bits and
   * then replaces the index, otherwise decoding fails; an absent or empty
   * header leaves the decoded body as it is.
   */
  function UnmarshalSuccessfulResponse(h: Header, body: Body): (r: Result<Response, Error>)
    ensures body.Malformed? ==> r == Err(BodyDecodeError)
    ensures body.Decoded? && HeaderGet(h, IndexHeader) == "" ==> r == Ok(body.response)
    ensures body.Decoded? && HeaderGet(h, IndexHeader) != "" ==>
              (r.Ok? <==> IsDecimal(HeaderGet(h, IndexHeader)) && ValueOf(HeaderGet(h, IndexHeader)) <= MaxUint64)
    ensures r.Ok? && HeaderGet(h, IndexHeader) != "" ==>
              IsDecimal(HeaderGet(h, IndexHeader)) && r.value == body.response.(index := ValueOf(HeaderGet(h, IndexHeader)))
    ensures r.Err? ==> r.error == BodyDecodeError || r.error.IndexHeaderError?
  {
    match body
    case Malformed => Err(BodyDecodeError)
    case Decoded(res) =>
      var v := HeaderGet(h, IndexHeader);
      if v == "" then Ok(res)
      else
        ParseUintCorrect(v);
        match ParseUint(v)
        case Ok(index) => Ok(res.(index := index))
        case Err(e) => Err(IndexHeaderError(e))
  }

  /**
   * `unmarshalHTTPResponse`: 200 and 201 go to the success decoder, every
   * other code to the error table, so no other code ever yields a response.
   */
  function UnmarshalHTTPResponse(code: int, h: Header, body: Body): (r: Result<Response, Error>)
    ensures code == StatusOK || code == StatusCreated ==> r == UnmarshalSuccessfulResponse(h, body)
    ensures code != StatusOK && code != StatusCreated ==> r == Err(UnmarshalErrorResponse(code))
    ensures r.Ok? ==> code in {StatusOK, StatusCreated}
  {
    if code == StatusOK || code == StatusCreated then UnmarshalSuccessfulResponse(h, body)
    else Err(UnmarshalErrorResponse(code))
  }

  /** A status-derived error, a decode error and a transport error never coincide. */
  predicate IsStatusError(e: Error) {
    e.KeyNoExist? || e.KeyExists? || e.NoLeader? || e.Timeout? || e.UnrecognizedStatus?
  }

  /**
   * The error a reply decodes to tells its cause apart: a status-derived error
   * only for a code other than 200 and 201, a decode error only for 200 or 201.
   */
  lemma ErrorsDistinguishCause(code: int, h: Header, body: Body)
    requires UnmarshalHTTPResponse(code, h, body).Err?
    ensures IsStatusError(UnmarshalHTTPResponse(code, h, body).error) <==> code !in {StatusOK, StatusCreated}
    ensures !UnmarshalHTTPResponse(code, h, body).error.TransportError?
  {
  }

  /** The header "42" on a decoded 200 reply gives index 42. */
  lemma IndexHeaderExample(res: Response)
    ensures UnmarshalHTTPResponse(StatusOK, map[IndexHeader := ["42"]], Decoded(res)) == Ok(res.(index := 42))
  {
  }
}
