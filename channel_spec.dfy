/** The state machine of a `SimpleChannel` (src/channel.ts), as pure functions on a value.
    Each JavaScript Promise handed out by `receive()` is a waiter id; what the Promise
    eventually does is recorded in the ledger `outcomes`, so resolving and rejecting it
    are explicit updates of that map. */
module ChannelSpec {

  datatype Option<T> = None | Some(value: T)

  /** The `State` enum, with the strings the source gives its members. */
  datatype State = Empty | Receiver | Data | Close {
    function Name(): string {
      match this
      case Empty => "empty"
      case Receiver => "receiver"
      case Data => "data"
      case Close => "close"
    }
  }

  /** The `TryReceivedKind` enum, with its strings. */
  datatype TryReceivedKind = ValueKind | NotReceivedKind | CloseKind {
    function Name(): string {
      match this
      case ValueKind => "value"
      case NotReceivedKind => "no"
      case CloseKind => "close"
    }
  }

  /** The tagged result of `tryReceive`. */
  datatype TryReceived<T> = Value(value: T) | NotReceived | Closed {
    function Kind(): TryReceivedKind {
      match this
      case Value(_) => ValueKind
      case NotReceived => NotReceivedKind
      case Closed => CloseKind
    }
  }

  /** The kind tag names the variant, and different members of each enum carry different
      strings. */
  lemma KindsAgree<T>(r: TryReceived<T>, s: State, s': State)
    ensures r.Kind() == ValueKind <==> r.Value?
    ensures r.Kind() == CloseKind <==> r.Closed?
    ensures r.Kind().Name() == if r.Value? then "value" else if r.Closed? then "close" else "no"
    ensures s.Name() == s'.Name() ==> s == s'
  {
  }

  /** Identity of the Promise that one `receive()` call returned. */
  type WaiterId = nat

  /** What has become of such a Promise. */
  datatype Outcome<T> = Pending | Fulfilled(value: T) | Rejected

  /** What `receive()` returns: an already resolved Promise, an already rejected one,
      or a pending one that waits in the `receivers` queue. */
  datatype Received<T> = ImmediateValue(value: T) | ImmediateReject | Waiting(id: WaiterId)

  /** What an operation throws: `send` throws a bare string, `done` an `Error` object. */
  datatype Thrown = ThrownString(text: string) | ThrownError(message: string)

  /** How a `void` operation completes. */
  datatype Completion = Returned | Threw(thrown: Thrown)

  const SendOnClosedText: string := "sending on closed channel"
  const NoDoneCountMessage: string := "Cannot call done() on a channel without a doneCount"

  /** The fields of a SimpleChannel, plus the waiter ledger: `nextWaiter` is the id the next
      pending Promise gets and `outcomes` records every Promise handed out so far. */
  datatype Chan<T> = Chan(
    data: seq<T>,
    receivers: seq<WaiterId>,
    state: State,
    doneCount: Option<int>,
    currentDoneCount: nat,
    nextWaiter: WaiterId,
    outcomes: map<WaiterId, Outcome<T>>)

  /** The state tag agrees with the two queues. */
  predicate Coherent<T>(c: Chan<T>) {
    match c.state
    case Empty => c.data == [] && c.receivers == []
    case Receiver => c.receivers != [] && c.data == []
    case Data => c.data != [] && c.receivers == []
    case Close => c.receivers == []
  }

  /** The waiters queue in the order their Promises were handed out, each of them is still
      pending, and every pending Promise is in the queue (none is forgotten). */
  predicate Ledger<T>(c: Chan<T>) {
    (forall id :: id in c.outcomes ==> id < c.nextWaiter) &&
    (forall i, j :: 0 <= i < j < |c.receivers| ==> c.receivers[i] < c.receivers[j]) &&
    (forall i :: 0 <= i < |c.receivers| ==>
       c.receivers[i] in c.outcomes && c.outcomes[c.receivers[i]] == Pending) &&
    (forall id :: id in c.outcomes && c.outcomes[id] == Pending ==> id in c.receivers)
  }

  /** The completion counter moves only when a `doneCount` was given, and an open channel
      on which `done()` has been called has not yet reached its `doneCount`. */
  predicate Counted<T>(c: Chan<T>) {
    (c.doneCount.None? ==> c.currentDoneCount == 0) &&
    (c.doneCount.Some? && !c.state.Close? && c.currentDoneCount > 0 ==>
       c.currentDoneCount < c.doneCount.value)
  }

  predicate Valid<T>(c: Chan<T>) {
    Coherent(c) && Ledger(c) && Counted(c)
  }

  /** `new SimpleChannel(doneCount)` */
  function Init<T>(doneCount: Option<int>): (c: Chan<T>)
    ensures Valid(c)
  {
    Chan([], [], Empty, doneCount, 0, 0, map[])
  }

  /** Rejects, in order, each waiter of `ws`. */
  function RejectAll<T>(o: map<WaiterId, Outcome<T>>, ws: seq<WaiterId>): map<WaiterId, Outcome<T>>
    decreases |ws|
  {
    if ws == [] then o
    else RejectAll(o[ws[0] := Rejected], ws[1..])
  }

  /** Exactly the waiters of `ws` end up rejected; every other Promise keeps its outcome. */
  lemma {:induction false} RejectAllFacts<T>(o: map<WaiterId, Outcome<T>>, ws: seq<WaiterId>)
    ensures forall id :: id in RejectAll(o, ws) <==> id in o || id in ws
    ensures forall id :: id in RejectAll(o, ws) ==> RejectAll(o, ws)[id] == if id in ws then Rejected else o[id]
    decreases |ws|
  {
    if ws != [] {
      RejectAllFacts(o[ws[0] := Rejected], ws[1..]);
      assert forall id :: id in ws <==> id == ws[0] || id in ws[1..];
    }
  }

  /** `tryReceive()` */
  function TryReceive<T>(c: Chan<T>): (r: (Chan<T>, TryReceived<T>))
    requires Coherent(c)
    ensures Valid(c) ==> Valid(r.0)
    // a value comes out exactly when one is queued, open or closed, and it is the oldest one
    ensures r.1.Value? <==> c.data != []
    ensures r.1.Value? ==> r.1.value == c.data[0] && r.0.data == c.data[1..]
    ensures r.1.Closed? <==> c.state.Close? && c.data == []
    ensures !r.1.Value? ==> r.0 == c
    // the waiters are left alone and closing is neither undone nor caused
    ensures r.0.receivers == c.receivers && r.0.outcomes == c.outcomes
    ensures r.0.state.Close? <==> c.state.Close?
    // an open channel goes back to `empty` when its last value is taken
    ensures r.1.Value? && !c.state.Close? ==> r.0.state == if r.0.data == [] then Empty else Data
    ensures r.0.doneCount == c.doneCount && r.0.currentDoneCount == c.currentDoneCount
  {
    if c.state.Close? then
      if |c.data| > 0 then (c.(data := c.data[1..]), Value(c.data[0]))
      else (c, Closed)
    else if c.state.Data? then
      var rest := c.data[1..];
      (c.(data := rest, state := if |rest| == 0 then Empty else c.state), Value(c.data[0]))
    else
      (c, NotReceived)
  }

  /** `receive()` */
  function Receive<T>(c: Chan<T>): (r: (Chan<T>, Received<T>))
    requires Coherent(c)
    ensures Valid(c) ==> Valid(r.0)
    // a closed channel rejects at once, even while backlog remains, and changes nothing
    ensures r.1.ImmediateReject? <==> c.state.Close?
    ensures r.1.ImmediateReject? ==> r.0 == c
    // an open channel hands out its oldest queued value
    ensures r.1.ImmediateValue? <==> !c.state.Close? && c.data != []
    ensures r.1.ImmediateValue? ==>
              r.1.value == c.data[0] && r.0.data == c.data[1..] &&
              r.0.receivers == c.receivers && r.0.outcomes == c.outcomes
    // otherwise a fresh pending Promise joins the back of the waiters
    ensures r.1.Waiting? ==>
              c.data == [] && r.0.data == [] && r.0.receivers == c.receivers + [r.1.id] &&
              r.0.outcomes == c.outcomes[r.1.id := Pending] &&
              (Ledger(c) ==> r.1.id !in c.outcomes) && r.0.state == Receiver
    ensures r.1.ImmediateValue? ==> r.0.state == if r.0.data == [] then Empty else Data
    ensures r.0.state.Close? <==> c.state.Close?
    ensures r.0.doneCount == c.doneCount && r.0.currentDoneCount == c.currentDoneCount
  {
    if c.state.Close? then
      (c, ImmediateReject)
    else if c.state.Data? then
      var rest := c.data[1..];
      (c.(data := rest, state := if |rest| == 0 then Empty else c.state), ImmediateValue(c.data[0]))
    else
      var id := c.nextWaiter;
      (c.(receivers := c.receivers + [id], state := Receiver, nextWaiter := id + 1,
          outcomes := c.outcomes[id := Pending]),
       Waiting(id))
  }

  /** `send(x)` */
  function Send<T>(c: Chan<T>, x: T): (r: (Chan<T>, Completion))
    requires Coherent(c)
    ensures Valid(c) ==> Valid(r.0)
    // sending on a closed channel throws and changes nothing
    ensures r.1.Threw? <==> c.state.Close?
    ensures r.1.Threw? ==> r.1 == Threw(ThrownString(SendOnClosedText)) && r.0 == c
    // with nobody waiting the value joins the back of the queue
    ensures !c.state.Close? && c.receivers == [] ==>
              r.0.data == c.data + [x] && r.0.receivers == [] && r.0.outcomes == c.outcomes &&
              r.0.state == Data
    // otherwise it goes straight to the oldest waiter and never touches the queue
    ensures c.receivers != [] ==>
              r.0.data == c.data && r.0.receivers == c.receivers[1..] &&
              r.0.outcomes == c.outcomes[c.receivers[0] := Fulfilled(x)] &&
              r.0.state == if r.0.receivers == [] then Empty else Receiver
    ensures r.0.state.Close? <==> c.state.Close?
    ensures r.0.doneCount == c.doneCount && r.0.currentDoneCount == c.currentDoneCount
  {
    if c.state.Close? then
      (c, Threw(ThrownString(SendOnClosedText)))
    else if !c.state.Receiver? then
      (c.(data := c.data + [x], state := Data), Returned)
    else
      var w := c.receivers[0];
      var rest := c.receivers[1..];
      (c.(receivers := rest, outcomes := c.outcomes[w := Fulfilled(x)],
          state := if |rest| == 0 then Empty else c.state),
       Returned)
  }

  /** `close()` */
  function CloseChannel<T>(c: Chan<T>): (r: Chan<T>)
    requires Coherent(c)
    ensures Coherent(r)
    ensures Ledger(c) ==> Ledger(r)
    ensures Counted(c) ==> Counted(r)
    // afterwards the channel is closed with no waiter; the backlog is kept
    ensures r.state.Close? && r.receivers == [] && r.data == c.data
    ensures r.doneCount == c.doneCount && r.currentDoneCount == c.currentDoneCount
    // a second call changes nothing
    ensures c.state.Close? ==> r == c
    // the first call rejects every queued waiter and no other Promise
    ensures !c.state.Close? ==>
              (forall id :: id in r.outcomes <==> id in c.outcomes || id in c.receivers) &&
              (forall id :: id in c.receivers ==> r.outcomes[id] == Rejected) &&
              (forall id :: id in c.outcomes && id !in c.receivers ==> r.outcomes[id] == c.outcomes[id])
  {
    if c.state.Close? then c
    else
      RejectAllFacts(c.outcomes, c.receivers);
      c.(state := State.Close, receivers := [], outcomes := RejectAll(c.outcomes, c.receivers))
  }

  /** `done()` */
  function Done<T>(c: Chan<T>): (r: (Chan<T>, Completion))
    requires Coherent(c)
    ensures Valid(c) ==> Valid(r.0)
    // without a doneCount it throws, before looking at whether the channel is closed
    ensures r.1.Threw? <==> c.doneCount.None?
    ensures r.1.Threw? ==> r.1 == Threw(ThrownError(NoDoneCountMessage)) && r.0 == c
    // on a closed channel it does nothing
    ensures c.state.Close? ==> r.0 == c
    // otherwise it counts one more call and closes exactly when the count is reached
    ensures c.doneCount.Some? && !c.state.Close? ==>
              r.0.currentDoneCount == c.currentDoneCount + 1 &&
              (r.0.state.Close? <==> r.0.currentDoneCount >= c.doneCount.value) &&
              r.0 == (if r.0.state.Close? then CloseChannel(c.(currentDoneCount := r.0.currentDoneCount))
                      else c.(currentDoneCount := r.0.currentDoneCount))
    ensures r.0.currentDoneCount >= c.currentDoneCount && r.0.doneCount == c.doneCount
  {
    if c.doneCount.None? then
      (c, Threw(ThrownError(NoDoneCountMessage)))
    else if c.state.Close? then
      (c, Returned)
    else
      var counted := c.(currentDoneCount := c.currentDoneCount + 1);
      if counted.currentDoneCount >= c.doneCount.value then (CloseChannel(counted), Returned)
      else (counted, Returned)
  }

  /** The two queues are never both non-empty, and waiters exist exactly in state `receiver`. */
  lemma QueuesExclusive<T>(c: Chan<T>)
    requires Coherent(c)
    ensures c.data == [] || c.receivers == []
    ensures c.receivers != [] <==> c.state.Receiver?
    ensures c.state.Empty? ==> c.data == [] && c.receivers == []
  {
  }

  /** Calling `close()` twice leaves the channel as calling it once does. */
  lemma CloseIdempotent<T>(c: Chan<T>)
    requires Coherent(c)
    ensures CloseChannel(CloseChannel(c)) == CloseChannel(c)
  {
  }

  /** Closing rejects exactly the Promises that were still pending and keeps every other
      outcome; no Promise is left pending. */
  lemma CloseRejectsPending<T>(c: Chan<T>)
    requires Valid(c)
    ensures CloseChannel(c).outcomes.Keys == c.outcomes.Keys
    ensures forall id :: id in c.outcomes ==>
              CloseChannel(c).outcomes[id] == if c.outcomes[id] == Pending then Rejected else c.outcomes[id]
    ensures forall id :: id in CloseChannel(c).outcomes ==> CloseChannel(c).outcomes[id] != Pending
  {
  }
}
