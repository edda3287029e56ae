/**
 * The values the v2 keys client exchanges with its caller and with the
 * transport: option bags, the decoded tree nodes and responses, the error
 * taxonomy and what one dispatch through the transport returns.
 */
module KeysModel {
  import opened Wrappers
  import opened Strconv

  /** Go's `PrevExistType` is a string type; the three named values are its constants. */
  type PrevExistType = string

  const PrevIgnore: PrevExistType := ""
  const PrevExist: PrevExistType := "true"
  const PrevNoExist: PrevExistType := "false"

  /** The path from an endpoint's own path to the root of the keys API. */
  const DefaultV2KeysPrefix: string := "/v2/keys"

  const MinInt64: int := -0x8000_0000_0000_0000
  const MaxInt64: int := 0x7FFF_FFFF_FFFF_FFFF

  /** Go's `time.Duration`: a signed 64-bit count of nanoseconds. */
  type Duration = x: int | MinInt64 <= x <= MaxInt64

  const NanosPerSecond: nat := 1_000_000_000

  datatype WatcherOptions = WatcherOptions(waitIndex: Uint64, recursive: bool)

  datatype SetOptions = SetOptions(prevValue: string, prevIndex: Uint64, prevExist: PrevExistType, ttl: Duration)

  datatype DeleteOptions = DeleteOptions(prevValue: string, prevIndex: Uint64, recursive: bool)

  /** The zero values a Go caller gets from `&SetOptions{}` and friends. */
  const ZeroSetOptions := SetOptions("", 0, PrevIgnore, 0)
  const ZeroDeleteOptions := DeleteOptions("", 0, false)
  const ZeroWatcherOptions := WatcherOptions(0, false)

  /** One entry of the keyspace tree, as the store reports it. */
  datatype Node = Node(key: string, value: string, nodes: seq<Node>, modifiedIndex: Uint64, createdIndex: Uint64)

  /** The result of one operation; `index` is the store's index at reply time. */
  datatype Response = Response(action: string, node: Option<Node>, prevNode: Option<Node>, index: Uint64)

  /** Why the transport could not deliver a reply; handed back to the caller unchanged. */
  datatype TransportFault = Cancelled | Unreachable(reason: string)

  /** What JSON decoding of a reply body produced. */
  datatype Body = Decoded(response: Response) | Malformed

  /** A header map with canonical keys, each holding its values in order. */
  type Header = map<string, seq<string>>

  /** What `client.Do` returns for one dispatched action. */
  datatype Reply =
    | TransportFailed(fault: TransportFault)
    | Got(code: int, header: Header, body: Body)

  /** Every error the keys client can return. */
  datatype Error =
    | KeyNoExist
    | KeyExists
    | NoLeader
    | Timeout
    | UnrecognizedStatus(code: int)
    | BodyDecodeError
    | IndexHeaderError(cause: NumError)
    | TransportError(fault: TransportFault)
}
