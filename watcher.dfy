/**
 * The watcher (`httpWatcher`): a long-poll cursor. Its one mutable field,
 * `nextWait`, is the wait action the next `Next` dispatches; after a
 * delivered event it moves just past that event's modified index, and after
 * any failure it stays where it was so that a retry resumes from the same place.
 */
module Watch {
  import opened Wrappers
  import opened Strconv
  import opened KeysModel
  import opened Actions
  import opened Decode
  import opened KeysApi

  /** `resp.Node.ModifiedIndex + 1` in Go's `uint64`, which wraps to 0 after the largest index. */
  function NextWaitIndex(m: Uint64): (n: Uint64)
    ensures m < MaxUint64 ==> n == m + 1
    ensures m == MaxUint64 ==> n == 0
  {
    (m + 1) % (MaxUint64 + 1)
  }

  /** The first wait action of `Watcher(key, opts)`: index and scope from the options, 0 and false without them. */
  function WatchStart(api: KeysAPI, key: string, opts: Option<WatcherOptions>): (w: WaitAct)
    ensures w.prefix == api.prefix && w.key == key
    ensures w.waitIndex == (if opts.Some? then opts.value.waitIndex else 0)
    ensures w.recursive == (opts.Some? && opts.value.recursive)
  {
    var act := WaitAction(prefix := api.prefix, key := key, waitIndex := 0, recursive := false);
    if opts.Some? then act.(waitIndex := opts.value.waitIndex, recursive := opts.value.recursive) else act
  }

  /** A nil option pointer starts the watcher where an all-zero option struct does. */
  lemma WatchNilOptionsAreZero(api: KeysAPI, key: string)
    ensures WatchStart(api, key, None) == WatchStart(api, key, Some(ZeroWatcherOptions))
  {
  }

  /** A reply that decodes to a response carries a node (Go dereferences it without a check). */
  predicate DeliversNode(reply: Reply) {
    Receive(reply).Ok? ==> Receive(reply).value.node.Some?
  }

  /** The modified index of the event a reply delivers, if it delivers one. */
  function Delivered(reply: Reply): (e: Option<Uint64>)
    requires DeliversNode(reply)
    ensures e.Some? <==> Receive(reply).Ok?
  {
    if Receive(reply).Ok? then Some(Receive(reply).value.node.value.modifiedIndex) else None
  }

  /**
   * The cursor after one `Next` whose reply decoded to `r`: only the wait
   * index moves, and only on success, to just past the delivered event.
   */
  function Advance(w: WaitAct, r: Result<Response, Error>): (w': WaitAct)
    requires r.Ok? ==> r.value.node.Some?
    ensures w'.prefix == w.prefix && w'.key == w.key && w'.recursive == w.recursive
    ensures r.Err? ==> w' == w
    ensures r.Ok? ==> w'.waitIndex == NextWaitIndex(r.value.node.value.modifiedIndex)
    ensures r.Ok? && r.value.node.value.modifiedIndex < MaxUint64 ==> w'.waitIndex > r.value.node.value.modifiedIndex
  {
    if r.Ok? then w.(waitIndex := NextWaitIndex(r.value.node.value.modifiedIndex)) else w
  }

  /** An event at modified index 7 makes the following wait start at index 8. */
  lemma AdvancePastSeven(w: WaitAct, res: Response, n: Node)
    requires n.modifiedIndex == 7 && res.node == Some(n)
    ensures Advance(w, Ok(res)).waitIndex == 8
  {
  }

  class Watcher {
    /** The wait action the next call dispatches. */
    var nextWait: WaitAct

    /** `Watcher(key, opts)` on the facade. */
    constructor (api: KeysAPI, key: string, opts: Option<WatcherOptions>)
      ensures nextWait == WatchStart(api, key, opts)
    {
      nextWait := WatchStart(api, key, opts);
    }

    /**
     * `Next`: dispatch the current wait action through `transport` (the
     * transport as it answers this call), decode the reply, and on success move
     * the cursor past the delivered event; on failure leave it untouched.
     */
    method Next(transport: Action -> Reply) returns (r: Result<Response, Error>)
      requires DeliversNode(transport(nextWait))
      modifies this
      ensures r == Receive(transport(old(nextWait)))
      ensures nextWait == Advance(old(nextWait), r)
      ensures r.Err? ==> nextWait == old(nextWait)
    {
      var reply := transport(nextWait);
      if reply.TransportFailed? {
        return Err(TransportError(reply.fault));
      }
      r := UnmarshalHTTPResponse(reply.code, reply.header, reply.body);
      if r.Err? {
        return;
      }
      nextWait := nextWait.(waitIndex := NextWaitIndex(r.value.node.value.modifiedIndex));
    }
  }

  // A run of calls to `Next`, one reply each.

  predicate AllDeliverNodes(rs: seq<Reply>) {
    forall i :: 0 <= i < |rs| ==> DeliversNode(rs[i])
  }

  /** The cursor after a watcher starting at `w` has received the replies `rs`, in order. */
  function CursorAfter(w: WaitAct, rs: seq<Reply>): WaitAct
    requires AllDeliverNodes(rs)
    decreases |rs|
  {
    if rs == [] then w
    else
      assert DeliversNode(rs[0]);
      CursorAfter(Advance(w, Receive(rs[0])), rs[1..])
  }

  /** The modified index of the latest event delivered among `rs`, if any. */
  function LastEvent(rs: seq<Reply>): Option<Uint64>
    requires AllDeliverNodes(rs)
    decreases |rs|
  {
    if rs == [] then None
    else
      assert DeliversNode(rs[|rs| - 1]);
      match Delivered(rs[|rs| - 1])
      case Some(m) => Some(m)
      case None => LastEvent(rs[..|rs| - 1])
  }

  /** The latest event of `rs` is that of its tail, or else the one its first reply delivered. */
  lemma {:induction false} LastEventUnfoldFront(rs: seq<Reply>)
    requires |rs| > 0 && AllDeliverNodes(rs)
    ensures DeliversNode(rs[0])
    ensures LastEvent(rs) == if LastEvent(rs[1..]).Some? then LastEvent(rs[1..]) else Delivered(rs[0])
    decreases |rs|
  {
    assert DeliversNode(rs[0]);
    if |rs| > 1 {
      var n := |rs|;
      assert DeliversNode(rs[n - 1]);
      assert rs[1..][|rs[1..]| - 1] == rs[n - 1];
      if Delivered(rs[n - 1]).None? {
        var init := rs[..n - 1];
        assert init[1..] == rs[1..][..|rs[1..]| - 1];
        assert init[0] == rs[0];
        LastEventUnfoldFront(init);
      }
    }
  }

  /**
   * After any run of replies the cursor has the same prefix, key and scope as
   * at the start, and its wait index is one past the latest delivered event,
   * or the starting index when no event was delivered: failures never move it
   * and no delivered event is waited for again.
   */
  lemma {:induction false} CursorTracksLastEvent(w: WaitAct, rs: seq<Reply>)
    requires AllDeliverNodes(rs)
    ensures CursorAfter(w, rs) ==
              w.(waitIndex := if LastEvent(rs).Some? then NextWaitIndex(LastEvent(rs).value) else w.waitIndex)
    decreases |rs|
  {
    if rs != [] {
      LastEventUnfoldFront(rs);
      CursorTracksLastEvent(Advance(w, Receive(rs[0])), rs[1..]);
    }
  }
}
