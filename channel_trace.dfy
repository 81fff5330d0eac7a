/** Runs of SimpleChannel operations, and the properties that relate many calls: values
    reach consumers in the order they were sent, none duplicated or dropped; closing is
    permanent; a closed channel drains its backlog through `tryReceive`; and the `done()`
    barrier closes the channel at exactly the configured count. */
module ChannelTrace {
  import opened ChannelSpec

  /** One call on the channel. */
  datatype Op<T> = SendOp(x: T) | ReceiveOp | TryReceiveOp | CloseOp | DoneOp

  /** What the caller gets back from that call. */
  datatype Reply<T> =
    | SendReply(completion: Completion)
    | ReceiveReply(received: Received<T>)
    | TryReply(tried: TryReceived<T>)
    | CloseReply
    | DoneReply(completion: Completion)

  datatype Event<T> = Event(op: Op<T>, reply: Reply<T>)

  function Step<T>(c: Chan<T>, op: Op<T>): (r: (Chan<T>, Reply<T>))
    requires Coherent(c)
    ensures Valid(c) ==> Valid(r.0)
    ensures c.state.Close? ==> r.0.state.Close? && r.0.receivers == []
    ensures r.0.currentDoneCount >= c.currentDoneCount
  {
    match op
    case SendOp(x) => var s := Send(c, x); (s.0, SendReply(s.1))
    case ReceiveOp => var s := Receive(c); (s.0, ReceiveReply(s.1))
    case TryReceiveOp => var s := TryReceive(c); (s.0, TryReply(s.1))
    case CloseOp => (CloseChannel(c), CloseReply)
    case DoneOp => var s := Done(c); (s.0, DoneReply(s.1))
  }

  /** Performs `ops` in order, logging each call with its reply. */
  function Run<T>(c: Chan<T>, ops: seq<Op<T>>): (r: (Chan<T>, seq<Event<T>>))
    requires Valid(c)
    ensures Valid(r.0)
    ensures |r.1| == |ops| && forall k :: 0 <= k < |ops| ==> r.1[k].op == ops[k]
    decreases |ops|
  {
    if ops == [] then (c, [])
    else
      var prev := Run(c, ops[..|ops| - 1]);
      var last := Step(prev.0, ops[|ops| - 1]);
      (last.0, prev.1 + [Event(ops[|ops| - 1], last.1)])
  }

  lemma RunSnoc<T>(c: Chan<T>, ops: seq<Op<T>>, op: Op<T>)
    requires Valid(c)
    ensures Run(c, ops + [op]) ==
            (Step(Run(c, ops).0, op).0, Run(c, ops).1 + [Event(op, Step(Run(c, ops).0, op).1)])
  {
    assert (ops + [op])[..|ops|] == ops;
  }

  // ----- what goes in and what comes out -----

  predicate IsWait<T>(e: Event<T>) {
    e.reply.ReceiveReply? && e.reply.received.Waiting?
  }

  function WaitId<T>(e: Event<T>): WaiterId
    requires IsWait(e)
  {
    e.reply.received.id
  }

  predicate PendingIn<T>(e: Event<T>, o: map<WaiterId, Outcome<T>>) {
    IsWait(e) && WaitId(e) in o && o[WaitId(e)] == Pending
  }

  /** The value a reply has handed to its caller so far, given what became of the Promises. */
  function Contribution<T>(r: Reply<T>, o: map<WaiterId, Outcome<T>>): seq<T> {
    match r
    case ReceiveReply(ImmediateValue(v)) => [v]
    case ReceiveReply(Waiting(id)) => if id in o && o[id].Fulfilled? then [o[id].value] else []
    case TryReply(Value(v)) => [v]
    case _ => []
  }

  /** The values consumers have obtained, listed in the order of their calls. */
  function Handed<T>(log: seq<Event<T>>, o: map<WaiterId, Outcome<T>>): seq<T> {
    if log == [] then []
    else Handed(log[..|log| - 1], o) + Contribution(log[|log| - 1].reply, o)
  }

  /** The value a call put into the channel: that of a `send` that did not throw. */
  function Accepts<T>(e: Event<T>): seq<T> {
    if e.op.SendOp? && e.reply.SendReply? && e.reply.completion == Returned then [e.op.x] else []
  }

  /** The values sent without an exception, in the order of the `send` calls. */
  function Accepted<T>(log: seq<Event<T>>): seq<T> {
    if log == [] then []
    else Accepted(log[..|log| - 1]) + Accepts(log[|log| - 1])
  }

  lemma HandedSnoc<T>(log: seq<Event<T>>, e: Event<T>, o: map<WaiterId, Outcome<T>>)
    ensures Handed(log + [e], o) == Handed(log, o) + Contribution(e.reply, o)
    ensures Accepted(log + [e]) == Accepted(log) + Accepts(e)
  {
    assert (log + [e])[..|log|] == log;
  }

  /** `Handed` depends only on what each reply contributes. */
  lemma {:induction false} HandedFrame<T>(log: seq<Event<T>>, o: map<WaiterId, Outcome<T>>, o': map<WaiterId, Outcome<T>>)
    requires forall k :: 0 <= k < |log| ==> Contribution(log[k].reply, o) == Contribution(log[k].reply, o')
    ensures Handed(log, o) == Handed(log, o')
  {
    if log != [] {
      HandedFrame(log[..|log| - 1], o, o');
    }
  }

  /** Fulfilling the pending Promise of the reply at `k0`, when no later call has obtained
      anything, appends exactly that value to what consumers have obtained. */
  lemma {:induction false} FulfilOldest<T>(log: seq<Event<T>>, o: map<WaiterId, Outcome<T>>, k0: nat, x: T)
    requires k0 < |log| && PendingIn(log[k0], o)
    requires forall k :: 0 <= k < |log| && k != k0 && IsWait(log[k]) ==> WaitId(log[k]) != WaitId(log[k0])
    requires forall k :: k0 < k < |log| ==> Contribution(log[k].reply, o) == []
    ensures Handed(log, o[WaitId(log[k0]) := Fulfilled(x)]) == Handed(log, o) + [x]
  {
    var w := WaitId(log[k0]);
    var o' := o[w := Fulfilled(x)];
    var init := log[..|log| - 1];
    if k0 == |log| - 1 {
      HandedFrame(init, o, o');
    } else {
      FulfilOldest(init, o, k0, x);
      assert Contribution(log[|log| - 1].reply, o') == [];
    }
  }

  // ----- the invariant that ties a run's log to the channel it produced -----

  /** Waiting replies carry ids already handed out, increasing along the log. */
  ghost predicate IdsOrdered<T>(log: seq<Event<T>>, next: WaiterId) {
    (forall k :: 0 <= k < |log| && IsWait(log[k]) ==> WaitId(log[k]) < next) &&
    (forall j, k :: 0 <= j < k < |log| && IsWait(log[j]) && IsWait(log[k]) ==>
       WaitId(log[j]) < WaitId(log[k]))
  }

  /** Every Promise in the ledger was handed out by a reply of the log. */
  ghost predicate FromLog<T>(log: seq<Event<T>>, o: map<WaiterId, Outcome<T>>) {
    forall id :: id in o ==> exists k :: 0 <= k < |log| && IsWait(log[k]) && WaitId(log[k]) == id
  }

  /** No call made after a still-pending waiter has obtained anything. */
  ghost predicate Quiet<T>(log: seq<Event<T>>, o: map<WaiterId, Outcome<T>>) {
    forall j, k :: 0 <= j < k < |log| && PendingIn(log[j], o) ==> Contribution(log[k].reply, o) == []
  }

  /** Every accepted value has reached a consumer or is still queued, in order. */
  ghost predicate Conserves<T>(log: seq<Event<T>>, o: map<WaiterId, Outcome<T>>, data: seq<T>) {
    Accepted(log) == Handed(log, o) + data
  }

  ghost predicate Traced<T>(c: Chan<T>, log: seq<Event<T>>) {
    IdsOrdered(log, c.nextWaiter) && FromLog(log, c.outcomes) && Quiet(log, c.outcomes) &&
    Conserves(log, c.outcomes, c.data)
  }

  lemma IdsSnoc<T>(log: seq<Event<T>>, next: WaiterId, e: Event<T>, next': WaiterId)
    requires IdsOrdered(log, next) && next <= next'
    requires IsWait(e) ==> next <= WaitId(e) < next'
    ensures IdsOrdered(log + [e], next')
  {
  }

  lemma FromLogSnoc<T>(log: seq<Event<T>>, o: map<WaiterId, Outcome<T>>, e: Event<T>)
    requires FromLog(log, o)
    ensures FromLog(log + [e], o)
  {
    var log' := log + [e];
    forall id | id in o
      ensures exists k :: 0 <= k < |log'| && IsWait(log'[k]) && WaitId(log'[k]) == id
    {
      var k :| 0 <= k < |log| && IsWait(log[k]) && WaitId(log[k]) == id;
      assert log'[k] == log[k];
    }
  }

  lemma QuietSnoc<T>(log: seq<Event<T>>, o: map<WaiterId, Outcome<T>>, e: Event<T>)
    requires Quiet(log, o) && Contribution(e.reply, o) == []
    ensures Quiet(log + [e], o)
  {
    var log' := log + [e];
    forall j, k | 0 <= j < k < |log'| && PendingIn(log'[j], o)
      ensures Contribution(log'[k].reply, o) == []
    {
      if k < |log| {
        assert log'[j] == log[j] && log'[k] == log[k];
      }
    }
  }

  /** With no Promise pending, any log is quiet. */
  lemma QuietNonePending<T>(log: seq<Event<T>>, o: map<WaiterId, Outcome<T>>)
    requires forall id :: id in o ==> o[id] != Pending
    ensures Quiet(log, o)
  {
  }

  /** A call that hands out nothing, takes nothing in and leaves the queue and the ledger alone. */
  lemma InertStep<T>(c: Chan<T>, c': Chan<T>, log: seq<Event<T>>, e: Event<T>)
    requires Traced(c, log)
    requires c'.data == c.data && c'.outcomes == c.outcomes && c'.nextWaiter == c.nextWaiter
    requires !IsWait(e) && Contribution(e.reply, c.outcomes) == [] && Accepts(e) == []
    ensures Traced(c', log + [e])
  {
    IdsSnoc(log, c.nextWaiter, e, c.nextWaiter);
    FromLogSnoc(log, c.outcomes, e);
    QuietSnoc(log, c.outcomes, e);
    HandedSnoc(log, e, c.outcomes);
  }

  /** `send` on an open channel with nobody waiting. */
  lemma EnqueueStep<T>(c: Chan<T>, c': Chan<T>, log: seq<Event<T>>, e: Event<T>, x: T)
    requires Traced(c, log)
    requires c'.data == c.data + [x] && c'.outcomes == c.outcomes && c'.nextWaiter == c.nextWaiter
    requires !IsWait(e) && Contribution(e.reply, c.outcomes) == [] && Accepts(e) == [x]
    ensures Traced(c', log + [e])
  {
    var o := c.outcomes;
    IdsSnoc(log, c.nextWaiter, e, c.nextWaiter);
    FromLogSnoc(log, o, e);
    QuietSnoc(log, o, e);
    HandedSnoc(log, e, o);
    assert Handed(log + [e], o) == Handed(log, o);
    assert Accepted(log + [e]) == (Handed(log, o) + c.data) + [x];
    assert (Handed(log, o) + c.data) + [x] == Handed(log, o) + (c.data + [x]);
  }

  /** `receive` or `tryReceive` taking the oldest queued value while nobody waits. */
  lemma TakeStep<T>(c: Chan<T>, c': Chan<T>, log: seq<Event<T>>, e: Event<T>)
    requires Traced(c, log)
    requires forall id :: id in c.outcomes ==> c.outcomes[id] != Pending
    requires c.data != []
    requires c'.data == c.data[1..] && c'.outcomes == c.outcomes && c'.nextWaiter == c.nextWaiter
    requires !IsWait(e) && Contribution(e.reply, c.outcomes) == [c.data[0]] && Accepts(e) == []
    ensures Traced(c', log + [e])
  {
    IdsSnoc(log, c.nextWaiter, e, c.nextWaiter);
    FromLogSnoc(log, c.outcomes, e);
    QuietNonePending(log + [e], c.outcomes);
    HandedSnoc(log, e, c.outcomes);
    assert c.data == [c.data[0]] + c.data[1..];
  }

  /** A ledger with the same Promises keeps the log's origins. */
  lemma FromLogSameKeys<T>(log: seq<Event<T>>, o: map<WaiterId, Outcome<T>>, o': map<WaiterId, Outcome<T>>)
    requires FromLog(log, o) && o'.Keys == o.Keys
    ensures FromLog(log, o')
  {
    forall id | id in o'
      ensures exists k :: 0 <= k < |log| && IsWait(log[k]) && WaitId(log[k]) == id
    {
      assert id in o;
    }
  }

  lemma FromLogWait<T>(log: seq<Event<T>>, o: map<WaiterId, Outcome<T>>, e: Event<T>)
    requires FromLog(log, o) && IsWait(e)
    ensures FromLog(log + [e], o[WaitId(e) := Pending])
  {
    var log' := log + [e];
    var o' := o[WaitId(e) := Pending];
    forall id | id in o'
      ensures exists k :: 0 <= k < |log'| && IsWait(log'[k]) && WaitId(log'[k]) == id
    {
      if id == WaitId(e) {
        assert log'[|log|] == e;
      } else {
        var k :| 0 <= k < |log| && IsWait(log[k]) && WaitId(log[k]) == id;
        assert log'[k] == log[k];
      }
    }
  }

  /** A new ledger entry under a fresh id changes no old reply's contribution. */
  lemma FreshEntryFrame<T>(log: seq<Event<T>>, o: map<WaiterId, Outcome<T>>, next: WaiterId, v: Outcome<T>)
    requires IdsOrdered(log, next)
    ensures forall k :: 0 <= k < |log| ==> Contribution(log[k].reply, o) == Contribution(log[k].reply, o[next := v])
  {
    forall k | 0 <= k < |log|
      ensures Contribution(log[k].reply, o) == Contribution(log[k].reply, o[next := v])
    {
      if IsWait(log[k]) {
        assert WaitId(log[k]) < next;
      }
    }
  }

  lemma QuietWait<T>(log: seq<Event<T>>, o: map<WaiterId, Outcome<T>>, e: Event<T>)
    requires IsWait(e) && Quiet(log, o) && IdsOrdered(log, WaitId(e))
    ensures Quiet(log + [e], o[WaitId(e) := Pending])
  {
    var o' := o[WaitId(e) := Pending];
    var log' := log + [e];
    FreshEntryFrame(log, o, WaitId(e), Pending);
    forall j, k | 0 <= j < k < |log'| && PendingIn(log'[j], o')
      ensures Contribution(log'[k].reply, o') == []
    {
      if k < |log| {
        assert log'[j] == log[j] && log'[k] == log[k];
        assert WaitId(log[j]) < WaitId(e);
        assert PendingIn(log[j], o);
      }
    }
  }

  /** `receive` registering a fresh pending Promise. */
  lemma WaitStep<T>(c: Chan<T>, c': Chan<T>, log: seq<Event<T>>, e: Event<T>)
    requires Traced(c, log)
    requires IsWait(e) && WaitId(e) == c.nextWaiter && Accepts(e) == []
    requires c'.data == c.data && c'.nextWaiter == c.nextWaiter + 1
    requires c'.outcomes == c.outcomes[c.nextWaiter := Pending]
    ensures Traced(c', log + [e])
  {
    var o, o' := c.outcomes, c'.outcomes;
    IdsSnoc(log, c.nextWaiter, e, c'.nextWaiter);
    FreshEntryFrame(log, o, c.nextWaiter, Pending);
    HandedFrame(log, o, o');
    HandedSnoc(log, e, o');
    FromLogWait(log, o, e);
    QuietWait(log, o, e);
  }

  /** What `send` to the oldest waiter needs to know of the log: where that waiter's
      reply sits, and that no later reply shares its id or has obtained anything. */
  lemma OldestWaiterInLog<T>(c: Chan<T>, log: seq<Event<T>>) returns (k0: nat)
    requires Ledger(c) && IdsOrdered(log, c.nextWaiter) && FromLog(log, c.outcomes) && Quiet(log, c.outcomes)
    requires c.receivers != []
    ensures k0 < |log| && IsWait(log[k0]) && WaitId(log[k0]) == c.receivers[0]
    ensures PendingIn(log[k0], c.outcomes)
    ensures forall k :: 0 <= k < |log| && k != k0 && IsWait(log[k]) ==> WaitId(log[k]) != c.receivers[0]
    ensures forall k :: k0 < k < |log| ==> Contribution(log[k].reply, c.outcomes) == []
    ensures forall j :: 0 <= j < |log| && PendingIn(log[j], c.outcomes) && WaitId(log[j]) != c.receivers[0] ==> k0 < j
  {
    var w := c.receivers[0];
    assert w in c.outcomes;
    k0 :| 0 <= k0 < |log| && IsWait(log[k0]) && WaitId(log[k0]) == w;
    forall j | 0 <= j < |log| && PendingIn(log[j], c.outcomes) && WaitId(log[j]) != w
      ensures k0 < j
    {
      var id := WaitId(log[j]);
      assert id in c.receivers;
      var i :| 0 <= i < |c.receivers| && c.receivers[i] == id;
      assert w < id;
    }
  }

  /** Fulfilling the oldest waiter keeps the log quiet. */
  lemma QuietDeliver<T>(log: seq<Event<T>>, o: map<WaiterId, Outcome<T>>, k0: nat, x: T)
    requires Quiet(log, o) && k0 < |log| && IsWait(log[k0])
    requires forall k :: 0 <= k < |log| && k != k0 && IsWait(log[k]) ==> WaitId(log[k]) != WaitId(log[k0])
    requires forall j :: 0 <= j < |log| && PendingIn(log[j], o) && WaitId(log[j]) != WaitId(log[k0]) ==> k0 < j
    ensures Quiet(log, o[WaitId(log[k0]) := Fulfilled(x)])
  {
    var w := WaitId(log[k0]);
    var o' := o[w := Fulfilled(x)];
    forall j, k | 0 <= j < k < |log| && PendingIn(log[j], o')
      ensures Contribution(log[k].reply, o') == []
    {
      assert PendingIn(log[j], o) && WaitId(log[j]) != w;
      assert k != k0;
    }
  }

  lemma DeliverConserves<T>(log: seq<Event<T>>, o: map<WaiterId, Outcome<T>>, k0: nat, x: T, e: Event<T>)
    requires Conserves(log, o, [])
    requires k0 < |log| && PendingIn(log[k0], o)
    requires forall k :: 0 <= k < |log| && k != k0 && IsWait(log[k]) ==> WaitId(log[k]) != WaitId(log[k0])
    requires forall k :: k0 < k < |log| ==> Contribution(log[k].reply, o) == []
    requires !IsWait(e) && Accepts(e) == [x]
    ensures Conserves(log + [e], o[WaitId(log[k0]) := Fulfilled(x)], [])
  {
    var o' := o[WaitId(log[k0]) := Fulfilled(x)];
    FulfilOldest(log, o, k0, x);
    HandedSnoc(log, e, o');
    assert Contribution(e.reply, o') == [];
    assert Handed(log + [e], o') == Handed(log, o) + [x];
    assert Accepted(log) == Handed(log, o);
  }

  lemma DeliverQuiet<T>(log: seq<Event<T>>, o: map<WaiterId, Outcome<T>>, k0: nat, x: T, e: Event<T>)
    requires Quiet(log, o) && k0 < |log| && IsWait(log[k0])
    requires forall k :: 0 <= k < |log| && k != k0 && IsWait(log[k]) ==> WaitId(log[k]) != WaitId(log[k0])
    requires forall j :: 0 <= j < |log| && PendingIn(log[j], o) && WaitId(log[j]) != WaitId(log[k0]) ==> k0 < j
    requires !IsWait(e) && Contribution(e.reply, o) == []
    ensures Quiet(log + [e], o[WaitId(log[k0]) := Fulfilled(x)])
  {
    var o' := o[WaitId(log[k0]) := Fulfilled(x)];
    QuietDeliver(log, o, k0, x);
    assert Contribution(e.reply, o') == [];
    QuietSnoc(log, o', e);
  }

  lemma DeliverFromLog<T>(log: seq<Event<T>>, o: map<WaiterId, Outcome<T>>, w: WaiterId, x: T, e: Event<T>)
    requires FromLog(log, o) && w in o
    ensures FromLog(log + [e], o[w := Fulfilled(x)])
  {
    FromLogSameKeys(log, o, o[w := Fulfilled(x)]);
    FromLogSnoc(log, o[w := Fulfilled(x)], e);
  }

  /** `send` handing its value straight to the oldest waiter. */
  lemma DeliverStep<T>(c: Chan<T>, c': Chan<T>, log: seq<Event<T>>, e: Event<T>, x: T)
    requires Coherent(c) && Ledger(c) && Traced(c, log)
    requires c.receivers != []
    requires c'.data == c.data && c'.nextWaiter == c.nextWaiter
    requires c'.outcomes == c.outcomes[c.receivers[0] := Fulfilled(x)]
    requires !IsWait(e) && Contribution(e.reply, c.outcomes) == [] && Accepts(e) == [x]
    ensures Traced(c', log + [e])
  {
    var k0 := OldestWaiterInLog(c, log);
    assert c.data == [];
    IdsSnoc(log, c.nextWaiter, e, c.nextWaiter);
    DeliverFromLog(log, c.outcomes, c.receivers[0], x, e);
    DeliverQuiet(log, c.outcomes, k0, x, e);
    DeliverConserves(log, c.outcomes, k0, x, e);
  }

  /** Rejecting waiters that were pending changes no reply's contribution. */
  lemma RejectFrame<T>(log: seq<Event<T>>, o: map<WaiterId, Outcome<T>>, ws: seq<WaiterId>)
    requires forall i :: 0 <= i < |ws| ==> ws[i] in o && o[ws[i]] == Pending
    ensures RejectAll(o, ws).Keys == o.Keys
    ensures forall k :: 0 <= k < |log| ==> Contribution(log[k].reply, o) == Contribution(log[k].reply, RejectAll(o, ws))
  {
    var o' := RejectAll(o, ws);
    RejectAllFacts(o, ws);
    forall k | 0 <= k < |log|
      ensures Contribution(log[k].reply, o) == Contribution(log[k].reply, o')
    {
      if IsWait(log[k]) && WaitId(log[k]) in ws {
        var i :| 0 <= i < |ws| && ws[i] == WaitId(log[k]);
      }
    }
  }

  lemma RejectFromLog<T>(log: seq<Event<T>>, o: map<WaiterId, Outcome<T>>, ws: seq<WaiterId>, e: Event<T>)
    requires FromLog(log, o)
    requires forall i :: 0 <= i < |ws| ==> ws[i] in o && o[ws[i]] == Pending
    ensures FromLog(log + [e], RejectAll(o, ws))
  {
    RejectFrame(log, o, ws);
    FromLogSameKeys(log, o, RejectAll(o, ws));
    FromLogSnoc(log, RejectAll(o, ws), e);
  }

  /** Once every pending waiter is rejected, nothing is pending. */
  lemma RejectQuiet<T>(log: seq<Event<T>>, o: map<WaiterId, Outcome<T>>, ws: seq<WaiterId>)
    requires forall id :: id in o && o[id] == Pending ==> id in ws
    ensures Quiet(log, RejectAll(o, ws))
  {
    RejectAllFacts(o, ws);
    QuietNonePending(log, RejectAll(o, ws));
  }

  lemma RejectConserves<T>(log: seq<Event<T>>, o: map<WaiterId, Outcome<T>>, ws: seq<WaiterId>, data: seq<T>, e: Event<T>)
    requires Conserves(log, o, data)
    requires forall i :: 0 <= i < |ws| ==> ws[i] in o && o[ws[i]] == Pending
    requires !IsWait(e) && Contribution(e.reply, o) == [] && Accepts(e) == []
    ensures Conserves(log + [e], RejectAll(o, ws), data)
  {
    var o' := RejectAll(o, ws);
    RejectFrame(log, o, ws);
    HandedFrame(log, o, o');
    HandedSnoc(log, e, o');
    assert Contribution(e.reply, o') == [];
    assert Handed(log + [e], o') == Handed(log, o);
  }

  /** The first `close()`, called directly or by `done()`. */
  lemma CloseStep<T>(c: Chan<T>, log: seq<Event<T>>, e: Event<T>)
    requires Coherent(c) && Ledger(c) && Traced(c, log) && !c.state.Close?
    requires !IsWait(e) && Contribution(e.reply, c.outcomes) == [] && Accepts(e) == []
    ensures Traced(CloseChannel(c), log + [e])
  {
    var o, ws := c.outcomes, c.receivers;
    assert CloseChannel(c) == c.(state := State.Close, receivers := [], outcomes := RejectAll(o, ws));
    IdsSnoc(log, c.nextWaiter, e, c.nextWaiter);
    RejectFromLog(log, o, ws, e);
    RejectQuiet(log + [e], o, ws);
    RejectConserves(log, o, ws, c.data, e);
  }

  lemma SendTraced<T>(c: Chan<T>, log: seq<Event<T>>, x: T)
    requires Valid(c) && Traced(c, log)
    ensures Traced(Send(c, x).0, log + [Event(SendOp(x), SendReply(Send(c, x).1))])
  {
    var r := Send(c, x);
    var e := Event(SendOp(x), SendReply(r.1));
    if c.state.Close? {
      InertStep(c, r.0, log, e);
    } else if c.receivers == [] {
      EnqueueStep(c, r.0, log, e, x);
    } else {
      DeliverStep(c, r.0, log, e, x);
    }
  }

  lemma ReceiveTraced<T>(c: Chan<T>, log: seq<Event<T>>)
    requires Valid(c) && Traced(c, log)
    ensures Traced(Receive(c).0, log + [Event(ReceiveOp, ReceiveReply(Receive(c).1))])
  {
    var r := Receive(c);
    var e := Event(ReceiveOp, ReceiveReply(r.1));
    if r.1.ImmediateReject? {
      InertStep(c, r.0, log, e);
    } else if r.1.ImmediateValue? {
      TakeStep(c, r.0, log, e);
    } else {
      WaitStep(c, r.0, log, e);
    }
  }

  lemma TryReceiveTraced<T>(c: Chan<T>, log: seq<Event<T>>)
    requires Valid(c) && Traced(c, log)
    ensures Traced(TryReceive(c).0, log + [Event(TryReceiveOp, TryReply(TryReceive(c).1))])
  {
    var r := TryReceive(c);
    var e := Event(TryReceiveOp, TryReply(r.1));
    if r.1.Value? {
      TakeStep(c, r.0, log, e);
    } else {
      InertStep(c, r.0, log, e);
    }
  }

  lemma CloseTraced<T>(c: Chan<T>, log: seq<Event<T>>)
    requires Valid(c) && Traced(c, log)
    ensures Traced(CloseChannel(c), log + [Event(CloseOp, CloseReply)])
  {
    var e: Event<T> := Event(CloseOp, CloseReply);
    if c.state.Close? {
      InertStep(c, CloseChannel(c), log, e);
    } else {
      CloseStep(c, log, e);
    }
  }

  lemma DoneTraced<T>(c: Chan<T>, log: seq<Event<T>>)
    requires Valid(c) && Traced(c, log)
    ensures Traced(Done(c).0, log + [Event(DoneOp, DoneReply(Done(c).1))])
  {
    var r := Done(c);
    var e: Event<T> := Event(DoneOp, DoneReply(r.1));
    var counted := c.(currentDoneCount := c.currentDoneCount + 1);
    if c.doneCount.None? || c.state.Close? || !r.0.state.Close? {
      InertStep(c, r.0, log, e);
    } else {
      assert Traced(counted, log);
      CloseStep(counted, log, e);
    }
  }

  lemma StepTraced<T>(c: Chan<T>, log: seq<Event<T>>, op: Op<T>)
    requires Valid(c) && Traced(c, log)
    ensures Traced(Step(c, op).0, log + [Event(op, Step(c, op).1)])
  {
    match op
    case SendOp(x) => SendTraced(c, log, x);
    case ReceiveOp => ReceiveTraced(c, log);
    case TryReceiveOp => TryReceiveTraced(c, log);
    case CloseOp => CloseTraced(c, log);
    case DoneOp => DoneTraced(c, log);
  }

  // ----- properties of whole runs -----

  lemma {:induction false} RunTraced<T>(d: Option<int>, ops: seq<Op<T>>)
    ensures Traced(Run(Init(d), ops).0, Run(Init(d), ops).1)
    decreases |ops|
  {
    if ops != [] {
      var init := ops[..|ops| - 1];
      var op := ops[|ops| - 1];
      assert ops == init + [op];
      RunTraced(d, init);
      RunSnoc(Init(d), init, op);
      StepTraced(Run(Init(d), init).0, Run(Init(d), init).1, op);
    }
  }

  /** FIFO, with nothing duplicated or dropped: in any run from a new channel, the values
      consumer calls have obtained, listed in the order those calls were made, followed by
      the values still queued, are exactly the values sent without an exception, in the
      order they were sent. */
  lemma Fifo<T>(d: Option<int>, ops: seq<Op<T>>)
    ensures var r := Run(Init(d), ops);
      Accepted(r.1) == Handed(r.1, r.0.outcomes) + r.0.data
    ensures var r := Run(Init(d), ops);
      Handed(r.1, r.0.outcomes) <= Accepted(r.1)
  {
    RunTraced(d, ops);
  }

  /** Once closed, a channel stays closed with no waiter: every `send` throws, every
      `receive` is rejected at once, no Promise changes, and the backlog only shrinks. */
  lemma {:induction false} ClosedForever<T>(c: Chan<T>, ops: seq<Op<T>>)
    requires Valid(c) && c.state.Close?
    ensures var r := Run(c, ops);
      r.0.state.Close? && r.0.receivers == [] && r.0.outcomes == c.outcomes &&
      |r.0.data| <= |c.data| && r.0.data == c.data[|c.data| - |r.0.data|..]
    ensures var r := Run(c, ops);
      forall k :: 0 <= k < |ops| ==>
        (ops[k].SendOp? ==> r.1[k].reply == SendReply(Threw(ThrownString(SendOnClosedText)))) &&
        (ops[k].ReceiveOp? ==> r.1[k].reply == ReceiveReply(ImmediateReject))
    decreases |ops|
  {
    if ops != [] {
      var init := ops[..|ops| - 1];
      var op := ops[|ops| - 1];
      assert ops == init + [op];
      ClosedForever(c, init);
      RunSnoc(c, init, op);
      var prev := Run(c, init).0;
      var step := Step(prev, op);
      assert step.0.data == prev.data || step.0.data == prev.data[1..];
    }
  }

  function Tries<T>(n: nat): (ops: seq<Op<T>>)
    ensures |ops| == n && forall k :: 0 <= k < n ==> ops[k] == TryReceiveOp
  {
    seq(n, _ => TryReceiveOp)
  }

  /** `tryReceive` on a closed channel hands out the backlog in order, the state staying
      `close`, and then reports `close` on every later call. */
  lemma {:induction false} DrainAfterClose<T>(c: Chan<T>, n: nat)
    requires Valid(c) && c.state.Close?
    ensures var r := Run(c, Tries(n));
      r.0.state.Close? && r.0.data == c.data[if n < |c.data| then n else |c.data|..]
    ensures var r := Run(c, Tries(n));
      forall k :: 0 <= k < n ==>
        r.1[k].reply == TryReply(if k < |c.data| then Value(c.data[k]) else Closed)
  {
    if n > 0 {
      var m := n - 1;
      DrainAfterClose(c, m);
      assert Tries<T>(n) == Tries<T>(m) + [TryReceiveOp];
      RunSnoc(c, Tries<T>(m), TryReceiveOp);
      var prev := Run(c, Tries<T>(m));
      var last := TryClosedStep(prev.0);
      var r := Run(c, Tries<T>(n));
      assert r.1 == prev.1 + [Event(TryReceiveOp, last.1)];
      forall k | 0 <= k < n
        ensures r.1[k].reply == TryReply(if k < |c.data| then Value(c.data[k]) else Closed)
      {
        if k < m {
          assert r.1[k] == prev.1[k];
        }
      }
    }
  }

  /** One `tryReceive` on a closed channel. */
  lemma TryClosedStep<T>(c: Chan<T>) returns (r: (Chan<T>, Reply<T>))
    requires Valid(c) && c.state.Close?
    ensures r == Step(c, TryReceiveOp)
    ensures r.0.state.Close?
    ensures r.0.data == if c.data == [] then [] else c.data[1..]
    ensures r.1 == TryReply(if c.data == [] then Closed else Value(c.data[0]))
  {
    r := Step(c, TryReceiveOp);
  }

  function DoneCalls<T>(ops: seq<Op<T>>): nat {
    if ops == [] then 0
    else DoneCalls(ops[..|ops| - 1]) + if ops[|ops| - 1].DoneOp? then 1 else 0
  }

  /** The completion barrier: in a run from `new SimpleChannel(n)` in which nobody calls
      `close()`, the channel is closed exactly when `done()` has been called `n` times
      (once, when `n` is below 1), and the counter stops there. */
  lemma {:induction false} Barrier<T>(n: int, ops: seq<Op<T>>)
    requires forall k :: 0 <= k < |ops| ==> !ops[k].CloseOp?
    ensures var c := Run(Init(Some(n)), ops).0;
      var target := if n < 1 then 1 else n;
      c.currentDoneCount == (if DoneCalls(ops) < target then DoneCalls(ops) else target) &&
      (c.state.Close? <==> DoneCalls(ops) >= target)
    decreases |ops|
  {
    if ops != [] {
      var init := ops[..|ops| - 1];
      var op := ops[|ops| - 1];
      assert ops == init + [op];
      Barrier(n, init);
      RunSnoc(Init(Some(n)), init, op);
      DoneCountFixed(Some(n), init);
      var prev := Run(Init<T>(Some(n)), init).0;
      assert DoneCalls(ops) == DoneCalls(init) + if op.DoneOp? then 1 else 0;
      if !op.DoneOp? {
        StepKeepsCount(prev, op);
      }
    }
  }

  /** Only `done()` and `close()` move the counter or close the channel. */
  lemma StepKeepsCount<T>(c: Chan<T>, op: Op<T>)
    requires Valid(c) && !op.CloseOp? && !op.DoneOp?
    ensures Step(c, op).0.currentDoneCount == c.currentDoneCount
    ensures Step(c, op).0.state.Close? <==> c.state.Close?
  {
  }

  lemma {:induction false} DoneCountFixed<T>(d: Option<int>, ops: seq<Op<T>>)
    ensures Run(Init<T>(d), ops).0.doneCount == d
    decreases |ops|
  {
    if ops != [] {
      var init := ops[..|ops| - 1];
      var op := ops[|ops| - 1];
      assert ops == init + [op];
      DoneCountFixed(d, init);
      RunSnoc(Init(d), init, op);
    }
  }
}
