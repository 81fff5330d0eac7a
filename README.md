# node-chan channels in Dafny

A verified model of the channel core of node-chan (`src/channel.ts`):

- `SimpleChannel<T>`: a multi-producer, single-consumer channel. It holds a FIFO queue of
  values, a FIFO queue of waiting receivers, a four-valued state (`empty`, `receiver`,
  `data`, `close`) and an optional `doneCount` completion barrier.
- `MultiReceiverChannel<T>`: a fan-out registry of member `SimpleChannel`s, in insertion
  order. `close` is forwarded to every member. `send` is forwarded to the members in order
  and stops at the first closed one, whose exception ends the call.

A `receive()` that has to wait returns a pending Promise, modelled as a waiter id. A real
counter `nextWaiter` hands out the ids. A Promise that `receive()` settles at once is
modelled as `ImmediateValue(v)` or `ImmediateReject` and gets no id. A ghost ledger `outcomes` records whether each Promise is pending, fulfilled with a
value, or rejected, so `resolve` and `reject` become explicit updates of that map.

The project has four modules:

- `ChannelSpec` (`channel_spec.dfy`):
  - the source's datatypes: `State`, `TryReceivedKind`, `TryReceived`;
  - the channel's fields as a value `Chan<T>`, with the invariant `Valid`. `Valid` has three
    parts: the state agrees with the queues; the waiters are exactly the pending Promises,
    oldest first; once `done()` has been counted, the counter stays below `doneCount` while the channel is
    open (a channel made with a `doneCount` of 0 or less is open with counter 0 until its
    first `done()`);
  - one function per operation, each with a contract stating what the operation does.
- `Channel` (`channel.dfy`):
  - the classes `SimpleChannel` and `MultiReceiverChannel`. Their methods update fields in
    place, as the source does;
  - each `SimpleChannel` method is proved to leave the object in the state the matching
    function of `ChannelSpec` computes;
  - the fan-out methods loop over a duplicate-free sequence of member references. That
    sequence models the JavaScript `Set` in its iteration order.
- `ChannelTrace` (`channel_trace.dfy`): whole runs of operations, and the properties that
  relate many calls: FIFO with nothing duplicated or dropped, close being permanent,
  draining after close, and the `done()` barrier.
- `ChannelScenarios` (`channel_scenarios.dfy`): the scenarios of `test/channel.test.ts`,
  driven through the classes and proved.

## Model

| member | source | states |
|---|---|---|
| ChannelSpec.KindsAgree | src/channel.ts:1-17 | the kind of a `TryReceived` is `value` exactly for a value and `close` exactly for the closed result, with the source's strings ("value", "no", "close"); the four state strings are pairwise different |
| ChannelSpec.Init | src/channel.ts:31-37 | a new channel has no values, no waiters, state `empty`, counter 0, the given `doneCount`, and satisfies the invariant |
| ChannelSpec.TryReceive | src/channel.ts:39-68 | a value comes out exactly when one is queued, open or closed, and it is the oldest; `close` is reported exactly when the channel is closed and drained; otherwise nothing changes; the waiters are never touched; the state becomes `empty` when the last value of an open channel is taken; the invariant is preserved |
| ChannelSpec.Receive | src/channel.ts:70-90 | a closed channel rejects at once, even with backlog, and changes nothing; an open channel with data hands out its oldest value; otherwise a fresh pending Promise joins the back of the waiters and the state becomes `receiver`; the invariant is preserved |
| ChannelSpec.Send | src/channel.ts:92-107 | on a closed channel it throws the string "sending on closed channel" and changes nothing; with nobody waiting the value joins the back of the queue; otherwise it fulfils the oldest waiter and leaves the queue alone; the invariant is preserved |
| ChannelSpec.CloseChannel | src/channel.ts:109-125 | afterwards the channel is closed with no waiter and the same backlog; a second call changes nothing; the first call rejects every queued waiter and no other Promise; the invariant is preserved |
| ChannelSpec.RejectAll | src/channel.ts:120-122 | the `for` loop over the captured waiters: rejects them one at a time, in queue order; what that leaves in the ledger is the contract of `ChannelSpec.RejectAllFacts` |
| ChannelSpec.RejectAllFacts | src/channel.ts:119-122 | rejecting a list of waiters marks exactly those Promises rejected and keeps every other outcome |
| ChannelSpec.Done | src/channel.ts:127-138 | it throws "Cannot call done() on a channel without a doneCount" exactly when no `doneCount` was given, checked before the closed test; on a closed channel it does nothing; otherwise it counts one call and closes exactly when the count reaches `doneCount`; the counter never decreases; the invariant is preserved |
| ChannelSpec.QueuesExclusive | src/channel.ts:20-138 | under the invariant the two queues are never both non-empty, there are waiters exactly in state `receiver`, and state `empty` means both queues are empty |
| ChannelSpec.CloseIdempotent | src/channel.ts:109-113 | closing twice gives the same channel as closing once |
| ChannelSpec.CloseRejectsPending | src/channel.ts:114-122 | closing a valid channel keeps the ledger's Promises, rejects exactly those still pending, keeps every other outcome and leaves none pending |
| ChannelTrace.Step | src/channel.ts:39-138 | every operation preserves the invariant, a closed channel stays closed with no waiter, and the done counter never decreases |
| ChannelTrace.Run | src/channel.ts:39-138 | a run of operations from a valid channel ends valid and logs one reply per call, in call order |
| ChannelTrace.HandedFrame | src/channel.ts:101-102 | what consumers have obtained depends only on the ledger entries of their own Promises |
| ChannelTrace.FulfilOldest | src/channel.ts:101-102 | fulfilling the oldest waiter when nothing later has been obtained adds exactly its value at the end of what consumers have obtained |
| ChannelTrace.DeliverStep | src/channel.ts:99-106 | a `send` straight to the oldest waiter keeps the run's log and the channel in step |
| ChannelTrace.EnqueueStep | src/channel.ts:95-98 | a `send` that queues its value keeps the log and the channel in step |
| ChannelTrace.WaitStep | src/channel.ts:83-89 | a `receive` that registers a pending Promise keeps the log and the channel in step |
| ChannelTrace.CloseStep | src/channel.ts:109-125 | the first `close` keeps the log and the channel in step, with no Promise left pending |
| ChannelTrace.StepTraced | src/channel.ts:39-138 | every operation keeps the log and the channel in step: waiter ids increase along the log, every ledger entry comes from a logged `receive`, no call after a still-pending waiter obtained anything, and the values sent equal those obtained followed by those queued |
| ChannelTrace.RunTraced | src/channel.ts:39-138 | the same holds for every run from a new channel |
| ChannelTrace.Fifo | src/channel.ts:92-107 | FIFO, nothing duplicated or dropped: in every run from a new channel, the values consumer calls obtained, in the order of those calls, followed by the values still queued, are exactly the values sent without an exception, in send order |
| ChannelTrace.ClosedForever | src/channel.ts:70-107 | after close, any run keeps the channel closed with no waiter and every Promise's outcome unchanged; the backlog only shrinks from the front; every `send` throws "sending on closed channel" and every `receive` is rejected at once |
| ChannelTrace.TryClosedStep | src/channel.ts:41-51 | one `tryReceive` on a closed channel takes the oldest queued value, or reports `close` when none is left, and the state stays `close` |
| ChannelTrace.DrainAfterClose | src/channel.ts:41-51 | n calls of `tryReceive` on a closed channel return the backlog in order and then `close` on every later call; the state stays `close` and exactly the values returned leave the queue |
| ChannelTrace.StepKeepsCount | src/channel.ts:39-107 | only `done` and `close` move the counter or close the channel |
| ChannelTrace.DoneCountFixed | src/channel.ts:31-37 | the `doneCount` given to the constructor never changes |
| ChannelTrace.Barrier | src/channel.ts:127-138 | in a run from `new SimpleChannel(n)` without `close()`, the counter equals the number of `done()` calls capped at the target, and the channel is closed exactly when there have been that many calls; the target is `n`, or 1 when `n` is below 1 |
| Channel.SimpleChannel.constructor | src/channel.ts:31-37 | the new object holds the initial channel state and satisfies the invariant |
| Channel.SimpleChannel.TryReceive | src/channel.ts:39-68 | updates the fields in place to exactly the state `ChannelSpec.TryReceive` gives and returns its result; keeps the invariant |
| Channel.SimpleChannel.Receive | src/channel.ts:70-90 | updates the fields in place to exactly the state `ChannelSpec.Receive` gives, allocating the next waiter id, and returns its result; keeps the invariant |
| Channel.SimpleChannel.Send | src/channel.ts:92-107 | updates the fields in place to exactly the state `ChannelSpec.Send` gives and returns its completion; keeps the invariant |
| Channel.SimpleChannel.Close | src/channel.ts:109-125 | clears the waiters, sets the state and rejects each captured waiter in a loop; the new state is exactly `ChannelSpec.CloseChannel` of the old one; needs only the queue and ledger invariants, because `done` calls it after counting |
| Channel.SimpleChannel.Done | src/channel.ts:127-138 | updates the fields in place, calling `Close` when the count is reached, to exactly the state `ChannelSpec.Done` gives; keeps the invariant |
| Channel.Without | src/channel.ts:182-184 | deleting a member: a sequence without it comes back unchanged; otherwise its first occurrence is cut out, with the elements before it and after it kept in order, so the length drops by one; a duplicate-free sequence stays duplicate-free and no longer holds the member |
| Channel.MultiReceiverChannel.constructor | src/channel.ts:160-162 | a new registry has no members |
| Channel.MultiReceiverChannel.FirstClosed | src/channel.ts:164-168 | the index of the first closed member: all members before it are open, and it is closed unless it is the end |
| Channel.MultiReceiverChannel.Send | src/channel.ts:164-168 | the members before the first closed one receive the value, in order; that member and all later ones are unchanged; it throws "sending on closed channel" exactly when some member is closed |
| Channel.MultiReceiverChannel.Close | src/channel.ts:170-174 | every member ends as `ChannelSpec.CloseChannel` of its old state, and the registry stays valid |
| Channel.MultiReceiverChannel.Receiver | src/channel.ts:176-180 | appends a fresh open channel without a `doneCount`, after the existing members, and returns it |
| Channel.MultiReceiverChannel.RemoveReceiver | src/channel.ts:182-184 | removes the channel by identity, keeping the other members in order, and leaves the removed channel itself unchanged |
| ChannelScenarios.ReceiveThenSend | test/channel.test.ts:5-14 | two waiting receivers get 2 and 4 in that order and the channel ends `empty` |
| ChannelScenarios.SendThenReceive | test/channel.test.ts:16-27 | after sending 2 and 3, `receive` gives 2, `tryReceive` gives the value 3, and the channel ends `empty` |
| ChannelScenarios.DoneCountWorks | test/channel.test.ts:55-64 | with `doneCount` 3, two receivers wait and the first `done()` leaves the channel in state `receiver` |
| ChannelScenarios.ServedWhileCounting | test/channel.test.ts:65-70 | the two sends fulfil the waiters with 1 and 2, oldest first, the second `done()` leaves the channel open, and it ends `empty` |
| ChannelScenarios.ThirdDoneCloses | test/channel.test.ts:71-74 | the third `done()` closes the channel and changes no Promise |
| ChannelScenarios.ClosedAfterDone | test/channel.test.ts:76-79 | on the closed, drained channel `receive` rejects, `tryReceive` reports `close`, `send` throws "sending on closed channel", and none of them changes the channel |
| ChannelScenarios.DoneCountTest | test/channel.test.ts:55-79 | the whole test on one fresh channel: the waiters get 1 and 2, the third `done()` closes it, and after that `receive` rejects, `tryReceive` reports `close` and `send` throws "sending on closed channel" |
| ChannelScenarios.DoneWithoutCountThrows | test/channel.test.ts:108-113 | `done()` without a `doneCount` throws "Cannot call done() on a channel without a doneCount" |
| ChannelScenarios.RemovedMemberNotReached | src/channel.ts:182-184 | a channel removed from the registry is not reached by later `send`s and keeps its own state |

## Left out

- The async iterator (src/channel.ts:140-148) needs generator suspension and `await`. It ends at the first rejected `receive()`. On an already closed channel it therefore yields nothing, even with backlog, so the test at test/channel.test.ts:46-53 would pass vacuously: its loop body never runs. The iterator does not drain a closed channel's backlog; only `tryReceive` does (`ChannelTrace.DrainAfterClose`). The tests at test/channel.test.ts:29-53 and 82-106 are not modelled.
- The `null` sentinel branch of `receive` (src/channel.ts:75-78) is not modelled. The queue holds plain values of `T`, and `close` no longer enqueues `null`. The branch could only fire if a caller sent `null` itself, when `T` admits it.
- Promise scheduling is not modelled. `resolve` and `reject` are immediate updates of the ledger. Microtask timing, `.then` callbacks, and a Promise adopting a thenable sent as a value are left out. The callbacks run after the current call returns, so no member code runs inside a loop. The model therefore has no re-entrancy.
- `ChannelTrace.Fifo`: what consumers obtain is listed in the order of their calls. When callbacks run relative to each other is left out with the rest of Promise scheduling.
- `doneCount` is a JavaScript `number`; the model makes it an unbounded integer (`Option<int>`, `None` for `undefined`). Fractional and `NaN` counts are left out, as is loss of precision above 2^53. Zero and negative counts are modelled: the first `done()` closes the channel.
- The `state` getter (src/channel.ts:27-29) is a read of the field.
- Thrown values are modelled as `Completion` results, not as exceptions. `send` throws a bare string; `done` throws an `Error` carrying a message.
- The `SimpleReceiver` interface (src/channel.ts:151-155) only restricts a type and has no behaviour.
- `observe` (test/observe.test.ts) is a helper whose source is not part of this model.
- `MultiReceiverChannel.send` is sometimes described as best-effort forwarding to every member. The code has no `try`/`catch`, so the first closed member's exception ends the loop, and later members do not get the value. The model follows the code.
- Channel.Without: the claim that the removed element no longer occurs is stated only for duplicate-free input. The registry's invariant always provides such input, as a JavaScript `Set` does.
