/** The scenarios of test/channel.test.ts, driven through the classes: each method makes the
    calls the test makes, asserts what the test expects along the way, and promises the final
    outcome. A Promise's `.then` callback is read off the ledger entry of its waiter id. */
module ChannelScenarios {
  import opened ChannelSpec
  import opened Channel

  /** Two receivers wait, then two sends fulfil them oldest first and empty the channel. */
  method ReceiveThenSend() returns (ch: SimpleChannel<int>, p1: Received<int>, p2: Received<int>)
    ensures fresh(ch) && p1 == Waiting(0) && p2 == Waiting(1)
    ensures 0 in ch.outcomes && ch.outcomes[0] == Fulfilled(2)
    ensures 1 in ch.outcomes && ch.outcomes[1] == Fulfilled(4)
    ensures ch.state == Empty
  {
    ch := new SimpleChannel(None);
    p1 := ch.Receive();
    p2 := ch.Receive();
    assert ch.state == Receiver && ch.receivers == [0, 1] && ch.data == [];
    var s := ch.Send(2);
    assert ch.receivers == [1] && ch.outcomes[0] == Fulfilled(2);
    s := ch.Send(4);
  }

  /** Two sends queue their values; `receive` and then `tryReceive` take them in order. */
  method SendThenReceive() returns (ch: SimpleChannel<int>, r: Received<int>, t: TryReceived<int>)
    ensures fresh(ch) && r == ImmediateValue(2) && t == Value(3) && t.Kind() == ValueKind
    ensures ch.state == Empty
  {
    ch := new SimpleChannel(None);
    var s := ch.Send(2);
    s := ch.Send(3);
    assert ch.state == Data;
    r := ch.Receive();
    t := ch.TryReceive();
  }

  /** `new SimpleChannel(3)`, lines 55-64 of the test: two receivers wait, and the first
      `done()` leaves the channel open. */
  method DoneCountWorks() returns (ch: SimpleChannel<int>, p1: Received<int>, p2: Received<int>)
    ensures fresh(ch) && p1 == Waiting(0) && p2 == Waiting(1)
    ensures ch.Valid() && ch.state == Receiver && ch.receivers == [0, 1] && ch.data == []
    ensures ch.doneCount == Some(3) && ch.currentDoneCount == 1
  {
    ch := new SimpleChannel(Some(3));
    assert ch.state == Empty;
    p1 := ch.Receive();
    p2 := ch.Receive();
    assert ch.state == Receiver && ch.receivers == [0, 1] && ch.data == [] && ch.currentDoneCount == 0;
    var d := ch.Done();
  }

  /** Lines 65-70: the two sends serve the waiters oldest first, and the second `done()`
      in between still leaves the channel open. */
  method ServedWhileCounting(ch: SimpleChannel<int>) returns (s: Completion)
    requires ch.Valid() && ch.state == Receiver && ch.receivers == [0, 1] && ch.data == []
    requires ch.doneCount == Some(3) && ch.currentDoneCount == 1
    modifies ch
    ensures 0 in ch.outcomes && ch.outcomes[0] == Fulfilled(1)
    ensures 1 in ch.outcomes && ch.outcomes[1] == Fulfilled(2)
    ensures ch.Valid() && ch.state == Empty && ch.doneCount == Some(3) && ch.currentDoneCount == 2
  {
    s := ch.Send(1);
    assert ch.state == Receiver && ch.receivers == [1] && ch.outcomes[0] == Fulfilled(1);
    var d := ch.Done();
    assert ch.state == Receiver && ch.receivers == [1] && ch.currentDoneCount == 2;
    assert ch.outcomes[0] == Fulfilled(1);
    s := ch.Send(2);
  }

  /** Lines 73-74: the third `done()` closes the channel, keeping what the waiters got. */
  method ThirdDoneCloses(ch: SimpleChannel<int>) returns (d: Completion)
    requires ch.Valid() && ch.state == Empty && ch.doneCount == Some(3) && ch.currentDoneCount == 2
    modifies ch
    ensures d == Returned && ch.Valid() && ch.state == State.Close && ch.data == []
    ensures ch.currentDoneCount == 3 && ch.outcomes == old(ch.outcomes)
  {
    d := ch.Done();
  }

  /** Lines 76-79: on the closed channel `receive` rejects, `tryReceive`
      reports `close` and `send` throws, none of them changing the channel. */
  method ClosedAfterDone(ch: SimpleChannel<int>) returns (late: Received<int>, t: TryReceived<int>, s: Completion)
    requires ch.Valid() && ch.state == State.Close && ch.data == []
    modifies ch
    ensures late == ImmediateReject && t.Kind() == CloseKind
    ensures s == Threw(ThrownString("sending on closed channel"))
    ensures ch.Model() == old(ch.Model())
  {
    late := ch.Receive();
    t := ch.TryReceive();
    s := ch.Send(3);
  }

  /** Lines 55-79 start to finish: the waiters get 1 and 2, the third `done()` closes the
      channel, and after that `receive` rejects, `tryReceive` reports `close` and `send` throws. */
  method DoneCountTest() returns (ch: SimpleChannel<int>, late: Received<int>, t: TryReceived<int>, s: Completion)
    ensures fresh(ch) && ch.Valid() && ch.state == State.Close && ch.currentDoneCount == 3
    ensures 0 in ch.outcomes && ch.outcomes[0] == Fulfilled(1)
    ensures 1 in ch.outcomes && ch.outcomes[1] == Fulfilled(2)
    ensures late == ImmediateReject && t.Kind() == CloseKind
    ensures s == Threw(ThrownString("sending on closed channel"))
  {
    var p1, p2;
    ch, p1, p2 := DoneCountWorks();
    var sent := ServedWhileCounting(ch);
    var d := ThirdDoneCloses(ch);
    late, t, s := ClosedAfterDone(ch);
  }

  /** `done()` on a channel made without a `doneCount` throws its `Error`. */
  method DoneWithoutCountThrows() returns (ch: SimpleChannel<int>, d: Completion)
    ensures d == Threw(ThrownError("Cannot call done() on a channel without a doneCount"))
    ensures fresh(ch) && ch.state == Empty && ch.currentDoneCount == 0
  {
    ch := new SimpleChannel(None);
    d := ch.Done();
  }

  /** A member removed from a fan-out channel no longer receives what is sent to it, and
      keeps its own queue. */
  method RemovedMemberNotReached(m: MultiReceiverChannel<int>, c: SimpleChannel<int>, x: int)
      returns (r: Completion)
    requires m.Valid() && c in m.chans
    modifies m, m.chans
    ensures m.Valid() && c !in m.chans
    ensures c.Model() == old(c.Model())
  {
    m.RemoveReceiver(c);
    r := m.Send(x);
  }
}
