/** The two channel classes of src/channel.ts. Each method updates the fields in place, as
    the source does, and is proved to leave the object in the state the matching function of
    `ChannelSpec` computes from the old one. */
module Channel {
  import opened ChannelSpec

  /** A single-receiver channel: a FIFO of values, a FIFO of waiting receivers, the state
      tag and the optional completion barrier. `receivers` holds the ids of the Promises
      whose resolve/reject pairs the source keeps; the real field `nextWaiter` gives each new
      Promise its identity and the ghost field `outcomes` records what each Promise did. */
  class SimpleChannel<T> {
    var data: seq<T>
    var receivers: seq<WaiterId>
    var state: State
    var doneCount: Option<int>
    var currentDoneCount: nat
    var nextWaiter: WaiterId
    ghost var outcomes: map<WaiterId, Outcome<T>>

    ghost function Model(): Chan<T>
      reads this
    {
      Chan(data, receivers, state, doneCount, currentDoneCount, nextWaiter, outcomes)
    }

    ghost predicate Valid()
      reads this
    {
      ChannelSpec.Valid(Model())
    }

    constructor (doneCount: Option<int>)
      ensures Valid() && Model() == Init(doneCount)
    {
      this.receivers := [];
      this.data := [];
      this.state := Empty;
      this.doneCount := doneCount;
      this.currentDoneCount := 0;
      this.nextWaiter := 0;
      this.outcomes := map[];
    }

    method TryReceive() returns (r: TryReceived<T>)
      requires Valid()
      modifies this
      ensures Valid()
      ensures (Model(), r) == ChannelSpec.TryReceive(old(Model()))
    {
      if state == State.Close {
        if |data| > 0 {
          r := Value(data[0]);
          data := data[1..];
        } else {
          r := Closed;
        }
        return;
      }
      if state == Data {
        var v := data[0];
        data := data[1..];
        if |data| == 0 {
          state := Empty;
        }
        r := Value(v);
      } else {
        r := NotReceived;
      }
    }

    method Receive() returns (r: Received<T>)
      requires Valid()
      modifies this
      ensures Valid()
      ensures (Model(), r) == ChannelSpec.Receive(old(Model()))
    {
      if state == State.Close {
        r := ImmediateReject;
      } else if state == Data {
        var v := data[0];
        data := data[1..];
        if |data| == 0 {
          state := Empty;
        }
        r := ImmediateValue(v);
      } else {
        var id := nextWaiter;
        nextWaiter := nextWaiter + 1;
        outcomes := outcomes[id := Pending];
        receivers := receivers + [id];
        state := Receiver;
        r := Waiting(id);
      }
    }

    method Send(x: T) returns (r: Completion)
      requires Valid()
      modifies this
      ensures Valid()
      ensures (Model(), r) == ChannelSpec.Send(old(Model()), x)
    {
      if state == State.Close {
        return Threw(ThrownString(SendOnClosedText));
      } else if state != Receiver {
        data := data + [x];
        state := Data;
      } else {
        var w := receivers[0];
        receivers := receivers[1..];
        outcomes := outcomes[w := Fulfilled(x)];
        if |receivers| == 0 {
          state := Empty;
        }
      }
      r := Returned;
    }

    /** Needs only the queue and ledger invariants, because `Done` calls it after counting. */
    method Close()
      requires Coherent(Model()) && Ledger(Model())
      modifies this
      ensures Model() == CloseChannel(old(Model()))
      ensures Coherent(Model()) && Ledger(Model())
      ensures old(Valid()) ==> Valid()
    {
      if state == State.Close {
        return;
      }
      var toReject := receivers;
      state := State.Close;
      receivers := [];
      ghost var o0 := outcomes;
      var i := 0;
      while i < |toReject|
        invariant 0 <= i <= |toReject|
        invariant RejectAll(outcomes, toReject[i..]) == RejectAll(o0, toReject)
        invariant data == old(data) && state == State.Close && receivers == []
        invariant doneCount == old(doneCount) && currentDoneCount == old(currentDoneCount)
        invariant nextWaiter == old(nextWaiter)
      {
        outcomes := outcomes[toReject[i] := Rejected];
        i := i + 1;
      }
      assert toReject[i..] == [];
      assert Model() == CloseChannel(old(Model()));
    }

    method Done() returns (r: Completion)
      requires Valid()
      modifies this
      ensures Valid()
      ensures (Model(), r) == ChannelSpec.Done(old(Model()))
    {
      if doneCount.None? {
        return Threw(ThrownError(NoDoneCountMessage));
      }
      if state == State.Close {
        return Returned;
      }
      currentDoneCount := currentDoneCount + 1;
      if currentDoneCount >= doneCount.value {
        Close();
      }
      r := Returned;
    }
  }

  /** Removes `x` from `s`, keeping the order of the rest, as deleting from a JavaScript
      `Set` does to its iteration order; without `x`, `s` comes back as it is. */
  function Without<X(==)>(s: seq<X>, x: X): (r: seq<X>)
    ensures x !in s ==> r == s
    // the first occurrence of `x` is cut out; what comes before and after it keeps its order
    ensures x in s ==> |r| == |s| - 1
    ensures x in s ==> r[..Position(s, x)] == s[..Position(s, x)] && r[Position(s, x)..] == s[Position(s, x) + 1..]
    ensures forall y :: y in s && y != x ==> y in r
    ensures forall i :: 0 <= i < |r| ==> r[i] in s
    ensures Distinct(s) ==> Distinct(r) && x !in r
  {
    if x !in s then s
    else
      var p := Position(s, x);
      CutFacts(s, p);
      s[..p] + s[p + 1..]
  }

  /** Cutting out the element at `p`: what cutting the first occurrence of `s[p]` keeps. */
  lemma CutFacts<X>(s: seq<X>, p: nat)
    requires p < |s| && s[p] !in s[..p]
    ensures var r := s[..p] + s[p + 1..];
      r[..p] == s[..p] && r[p..] == s[p + 1..] &&
      (forall y :: y in s && y != s[p] ==> y in r) &&
      (forall i :: 0 <= i < |r| ==> r[i] in s) &&
      (Distinct(s) ==> Distinct(r) && s[p] !in r)
  {
    var r := s[..p] + s[p + 1..];
    assert r[..p] == s[..p] && r[p..] == s[p + 1..];
    assert forall i :: 0 <= i < |r| ==> r[i] == if i < p then s[i] else s[i + 1];
    forall y | y in s && y != s[p]
      ensures y in r
    {
      var j :| 0 <= j < |s| && s[j] == y;
      assert j < p ==> r[j] == y;
      assert j > p ==> r[j - 1] == y;
    }
  }

  predicate Distinct<X(==)>(s: seq<X>) {
    forall i, j :: 0 <= i < j < |s| ==> s[i] != s[j]
  }

  /** Where `x` first occurs in `s`. */
  function Position<X(==)>(s: seq<X>, x: X): (i: nat)
    requires x in s
    ensures i < |s| && s[i] == x && x !in s[..i]
  {
    if s[0] == x then 0 else 1 + Position(s[1..], x)
  }

  /** A fan-out channel: an insertion-ordered set of SimpleChannels, to each of which
      `send` and `close` are forwarded. */
  class MultiReceiverChannel<T> {
    var chans: seq<SimpleChannel<T>>

    ghost predicate Valid()
      reads this, chans
    {
      Distinct(chans) && forall i :: 0 <= i < |chans| ==> chans[i].Valid()
    }

    constructor ()
      ensures Valid() && chans == []
    {
      chans := [];
    }

    /** The index of the first member, from `i` on, that is closed; `|chans|` if none is. */
    ghost function FirstClosed(i: nat): (k: nat)
      reads this, chans
      requires i <= |chans|
      ensures i <= k <= |chans|
      ensures forall j :: i <= j < k ==> !chans[j].state.Close?
      ensures k < |chans| ==> chans[k].state.Close?
      decreases |chans| - i
    {
      if i == |chans| || chans[i].state.Close? then i else FirstClosed(i + 1)
    }

    /** Forwards `x` to each member in insertion order; the first closed member throws,
        and the exception ends the loop, so the members before it got `x` and the rest
        did not. */
    method Send(x: T) returns (r: Completion)
      requires Valid()
      modifies chans
      ensures Valid() && chans == old(chans)
      ensures r == if old(FirstClosed(0)) < |chans| then Threw(ThrownString(SendOnClosedText)) else Returned
      ensures forall i :: 0 <= i < old(FirstClosed(0)) ==>
                chans[i].Model() == ChannelSpec.Send(old(chans[i].Model()), x).0
      ensures forall i :: old(FirstClosed(0)) <= i < |chans| ==> chans[i].Model() == old(chans[i].Model())
    {
      ghost var k := FirstClosed(0);
      var i := 0;
      while i < |chans|
        invariant 0 <= i <= |chans| && i <= k
        invariant forall j :: 0 <= j < i ==>
                    chans[j].Valid() && chans[j].Model() == ChannelSpec.Send(old(chans[j].Model()), x).0
        invariant forall j :: i <= j < |chans| ==> unchanged(chans[j])
      {
        assert forall j :: 0 <= j < |chans| && j != i ==> chans[j] != chans[i];
        ghost var closed := chans[i].state.Close?;
        assert closed ==> i == k;
        assert !closed ==> i < k;
        r := chans[i].Send(x);
        if r.Threw? {
          return;
        }
        i := i + 1;
      }
      r := Returned;
    }

    /** Closes every member. */
    method Close()
      requires Valid()
      modifies chans
      ensures Valid() && chans == old(chans)
      ensures forall i :: 0 <= i < |chans| ==> chans[i].Model() == CloseChannel(old(chans[i].Model()))
    {
      var i := 0;
      while i < |chans|
        invariant 0 <= i <= |chans|
        invariant forall j :: 0 <= j < i ==>
                    chans[j].Valid() && chans[j].Model() == CloseChannel(old(chans[j].Model()))
        invariant forall j :: i <= j < |chans| ==> unchanged(chans[j])
      {
        assert forall j :: 0 <= j < |chans| && j != i ==> chans[j] != chans[i];
        chans[i].Close();
        i := i + 1;
      }
    }

    /** Adds a new open member without a `doneCount` and hands it out. */
    method Receiver() returns (c: SimpleChannel<T>)
      requires Valid()
      modifies this
      ensures Valid() && fresh(c)
      ensures chans == old(chans) + [c]
      ensures c.Model() == Init(None)
    {
      c := new SimpleChannel(None);
      chans := chans + [c];
    }

    /** Removes `c` by identity; `c` itself is not touched. */
    method RemoveReceiver(c: SimpleChannel<T>)
      requires Valid()
      modifies this
      ensures Valid()
      ensures chans == Without(old(chans), c) && c !in chans
      ensures c.Model() == old(c.Model())
    {
      chans := Without(chans, c);
    }
  }
}
