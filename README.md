# Akka.NET fan-out stage and compact base-64 encoding, modelled in Dafny

This project models two pieces of Akka.NET.

**The fan-out processor** (`Fanout`, `fanout_processor.dfy`). Its first part is `FanoutOutputs<T>`,
the output port of the one-to-many broadcast stage of Akka Streams. The second is
`FanoutProcessorImpl<T>`, the processor that drives that port. The port is a class with the source's
mutable fields: the current receive behaviour, the demand counter `downstreamBufferSpace`, the
closed flag `downstreamCompleted` and the exposed publisher. Its methods change those fields as
the C# code does:

- Before the exposed publisher arrives, every other message throws `IllegalStateException`.
- `DownstreamRunning` dispatches `SubscribePending`, `RequestMore` and `Cancel`, and reports every
  other message as unhandled.
- Demand is added with unchecked 64-bit `long` addition, which wraps around.
- Enqueueing an element checks it for null and then uses up one unit of demand.
- `Complete`, `Cancel` and `Error` are idempotent because of the closed flag.

The buffer manager this port extends (`SubscriberManagement`), the pump, the input port and the
exposed publisher are outside this model. Each call to them is appended to a ghost log
`calls`, so the contracts say exactly which collaborator is called, with which arguments, how
often and in which order. The ghost counters `granted` and `enqueued` record the total demand
requested from upstream and the number of elements pushed. The port's invariant `Valid()` says
that the counter equals `granted - enqueued`, wrapped to 64 bits.

**`Base64Encode(this long value)`** (`Base64Encoding`, `base64_encoding.dfy`). This is Akka's
compact, non-RFC rendering of a number. It writes the 6-bit digits least significant first, over
the alphabet `a-z A-Z 0-9 + ~`. The do-while loop is a method proved against the recursive
specification `Encode`. The lemmas prove the decoding round trip in both directions, that the
output is canonical, the exact digit count (at most 11 for a `long`), and that the loop
terminates exactly when the input is non-negative.

Both pieces share the module `Long` (`long.dfy`), which models a C# `long` as an integer in
[long.MinValue, long.MaxValue] together with the wrap-around of unchecked arithmetic.

## Model

| member | source | states |
|---|---|---|
| `Base64Encoding.Base64Encode` | src/core/Akka/Util/Base64Encoding.cs:27-38 | For every value in [0, long.MaxValue] the do-while loop terminates and returns exactly `Encode(value)`, the least-significant-first digit string |
| `Base64Encoding.Encode` | src/core/Akka/Util/Base64Encoding.cs:30-36 | The encoding always has at least one character, and every character is taken from `Base64Chars` |
| `Base64Encoding.AlphabetCodes` | src/core/Akka/Util/Base64Encoding.cs:20 | The alphabet literal has 64 characters: digit d is the d-th of a-z, then A-Z, then 0-9, then '+', '~' |
| `Base64Encoding.AlphabetIsDigitSet` | src/core/Akka/Util/Base64Encoding.cs:20 | The 64 alphabet characters are pairwise distinct, and a character is in the alphabet exactly when it has a digit value |
| `Base64Encoding.DigitValueOfAlphabet` | src/core/Akka/Util/Base64Encoding.cs:20 | Reading back the character `Base64Chars[d]` gives d |
| `Base64Encoding.AlphabetOfDigitValue` | src/core/Akka/Util/Base64Encoding.cs:20 | Every character with a digit value d is `Base64Chars[d]` |
| `Base64Encoding.EncodeZero` | src/core/Akka/Util/Base64Encoding.cs:30-36 | 0 encodes as "a", because the do-while loop writes one digit before it tests |
| `Base64Encoding.DecodeEncode` | src/core/Akka/Util/Base64Encoding.cs:33-35 | Summing digit(s[i]) * 64^i over the output gives back the input value |
| `Base64Encoding.EncodeInjective` | src/core/Akka/Util/Base64Encoding.cs:33-35 | Different non-negative values have different encodings |
| `Base64Encoding.EncodeDecode` | src/core/Akka/Util/Base64Encoding.cs:31-36 | Every non-empty digit string without a redundant high-order 'a' is the encoding of the value it denotes, so the encoding is a bijection onto such strings |
| `Base64Encoding.EncodeIsCanonical` | src/core/Akka/Util/Base64Encoding.cs:33-36 | The output has only alphabet digits, and its last (highest) character is 'a' only when the value is 0 and the output is "a" |
| `Base64Encoding.EncodeLength` | src/core/Akka/Util/Base64Encoding.cs:31-36 | The output length k is the number of base-64 digits of the value: value < 64^k, and 64^(k-1) <= value when k > 1 |
| `Base64Encoding.EncodeOfLongAtMost11` | src/core/Akka/Util/Base64Encoding.cs:27-36 | A non-negative long encodes to at most 11 characters |
| `Base64Encoding.NonNegativeReachesZero` | src/core/Akka/Util/Base64Encoding.cs:35-36 | From a non-negative value, `next` stays non-zero through every shift before the k-th and is 0 after the k-th, where k is the length of Encode(value), so the loop runs once per output digit |
| `Base64Encoding.NegativeNeverReachesZero` | src/core/Akka/Util/Base64Encoding.cs:35-36 | From a negative value the arithmetic shift keeps `next` negative after any number of iterations, so the loop never exits |
| `Long.WrapLong` | src/core/Akka.Streams/Implementation/FanoutProcessorImpl.cs:86 | Unchecked `long` arithmetic: the result is a long, congruent to the exact result modulo 2^64, and equal to it whenever that fits |
| `Long.WrapLongAdd` | src/core/Akka.Streams/Implementation/FanoutProcessorImpl.cs:86 | Wrapping after each `+=` is the same as wrapping the exact total once |
| `Fanout.Registrations` | src/core/Akka.Streams/Implementation/FanoutProcessorImpl.cs:88-91 | SubscribePending registers each pending subscriber exactly once, in the order the publisher handed them over |
| `Fanout.RegistrationsDoNotPump` | src/core/Akka.Streams/Implementation/FanoutProcessorImpl.cs:66-67 | Registering pending subscribers never calls the pump |
| `Fanout.RunningBehaviourPumps` | src/core/Akka.Streams/Implementation/FanoutProcessorImpl.cs:64-84 | RequestMore and Cancel each make exactly two calls, the last of which is the pump: the one MoreRequested with its subscription and demand (or the one UnregisterSubscription with its subscription) comes first, and the pump is called once, after it. SubscribePending pumps zero times. An unhandled message calls nothing |
| `Fanout.FanoutOutputs.constructor` | src/core/Akka.Streams/Implementation/FanoutProcessorImpl.cs:40-59 | A new port awaits ExposedPublisher, has no publisher and zero demand, is open, and stores the buffer sizes and whether an after-shutdown hook is present |
| `Fanout.FanoutOutputs.Receive` | src/core/Akka.Streams/Implementation/FanoutProcessorImpl.cs:49-84 | Before initialisation, ExposedPublisher stores its publisher, switches to the running behaviour and returns true. Any other message throws IllegalState and changes nothing. Once running, exactly SubscribePending, RequestMore and Cancel return true, with the calls given by RunningCalls. Every other message, ExposedPublisher included, returns false and changes nothing. The port's own code never changes demand or the closed flag here; what the pump or the buffer manager would do re-entrantly during RequestMore and Cancel is outside the model (see Left out) |
| `Fanout.FanoutOutputs.AwaitExposedPublisher` | src/core/Akka.Streams/Implementation/FanoutProcessorImpl.cs:49-58 | The initial behaviour: it accepts only ExposedPublisher, storing its publisher and becoming DownstreamRunning; anything else throws IllegalState with no state change |
| `Fanout.FanoutOutputs.DownstreamRunningReceive` | src/core/Akka.Streams/Implementation/FanoutProcessorImpl.cs:64-84 | Returns true exactly for SubscribePending, RequestMore and Cancel, and appends exactly the calls the running behaviour makes for that message |
| `Fanout.FanoutOutputs.SubscribePendingSubscribers` | src/core/Akka.Streams/Implementation/FanoutProcessorImpl.cs:88-91 | Appends one RegisterSubscriber call per pending subscriber, in order, and nothing else |
| `Fanout.FanoutOutputs.RequestFromUpstream` | src/core/Akka.Streams/Implementation/FanoutProcessorImpl.cs:86 | The demand count becomes the 64-bit wrapped sum of the old count and n. It is exactly old + n when that fits in a long. The granted total grows by n, and the counter stays equal to granted - enqueued, wrapped to 64 bits |
| `Fanout.FanoutOutputs.Shutdown` | src/core/Akka.Streams/Implementation/FanoutProcessorImpl.cs:93-98 | Shuts the exposed publisher down, if there is one. The reason is none when completed and NormalShutdownReason otherwise. Then the after-shutdown hook runs once, if there is one |
| `Fanout.FanoutOutputs.CancelUpstream` | src/core/Akka.Streams/Implementation/FanoutProcessorImpl.cs:100 | Closes the port and touches nothing else: no downstream call is made |
| `Fanout.FanoutOutputs.EnqueueOutputElement` | src/core/Akka.Streams/Implementation/FanoutProcessorImpl.cs:102-107 | A null element fails with NullElement before any state change. A non-null element lowers the demand count by exactly 1, counts one more enqueued element and is pushed downstream exactly once |
| `Fanout.FanoutOutputs.Complete` | src/core/Akka.Streams/Implementation/FanoutProcessorImpl.cs:109-116 | Afterwards the port is closed. CompleteDownstream is called once if the port was open, and nothing is called if it was already closed |
| `Fanout.FanoutOutputs.Cancel` | src/core/Akka.Streams/Implementation/FanoutProcessorImpl.cs:118 | Has exactly the contract of Complete |
| `Fanout.FanoutOutputs.Error` | src/core/Akka.Streams/Implementation/FanoutProcessorImpl.cs:120-129 | Afterwards the port is closed. If it was open, downstream is aborted with e, and then the exposed publisher, if set, is shut down with e. If it was already closed, nothing is called |
| `Fanout.DemandIsOutstandingRequests` | src/core/Akka.Streams/Implementation/FanoutProcessorImpl.cs:32-34 | While granted - enqueued fits in a long, DemandCount equals it. Demand is then available exactly when fewer elements were enqueued than were requested from upstream |
| `Fanout.CompleteTwice` | src/core/Akka.Streams/Implementation/FanoutProcessorImpl.cs:109-116 | Completing twice has the observable effect of completing once |
| `Fanout.TerminateAfterComplete` | src/core/Akka.Streams/Implementation/FanoutProcessorImpl.cs:109-129 | After Complete, a later Error or Cancel calls nothing |
| `Fanout.FanoutProcessorImpl.constructor` | src/core/Akka.Streams/Implementation/FanoutProcessorImpl.cs:143-151 | The processor's output port is new, uses the input buffer sizes from the settings, has the after-shutdown hook (AfterFlush) and starts uninitialised, open and with zero demand |
| `Fanout.FanoutProcessorImpl.RunningPhase` | src/core/Akka.Streams/Implementation/FanoutProcessorImpl.cs:148-149 | One step of the running phase. Nothing happens unless input is ready AND demand is available. Otherwise one element is dequeued and enqueued on the output. A non-null element uses up exactly one unit of demand and is pushed once. A null element fails with NullElement and leaves demand unchanged |
| `Fanout.FanoutProcessorImpl.Fail` | src/core/Akka.Streams/Implementation/FanoutProcessorImpl.cs:153-161 | Cancels the input first, then errors the output with e, which shuts the exposed publisher down with e if the port was open. The port ends closed; demand, behaviour and publisher are unchanged and the invariant holds |
| `Fanout.FanoutProcessorImpl.PumpFinished` | src/core/Akka.Streams/Implementation/FanoutProcessorImpl.cs:163-167 | Cancels the input first, then completes the output. The port ends closed; demand, behaviour and publisher are unchanged and the invariant holds |
| `Fanout.ExposeTransferFail` | src/core/Akka.Streams/Implementation/FanoutProcessorImpl.cs:148-161 | After ExposedPublisher, one transfer and Fail, the log is exactly: dequeue, push the element, cancel the input, abort downstream with e, shut the received publisher down with e; the port ends closed |

`DemandCount`, `IsDemandAvailable`, `IsClosed` and `IsOpen` (FanoutProcessorImpl.cs:32-34,
131-133) are the port's query functions, defined as in the source. `IsOpen` is `!IsClosed()`
and `IsDemandAvailable` is `DemandCount() > 0`. The method contracts above use them.

## Left out

- `SubscriberManagement<T>`, the base class. Its cursor buffer, per-subscriber demand,
  `RegisterSubscriber`, `MoreRequested`, `UnregisterSubscription`, `PushToDownstream`,
  `CompleteDownstream` and `AbortDownstream` are not part of this model. Calls to them are
  logged, not executed. Anything they would do re-entrantly is also not modelled: a
  `MoreRequested` that calls `RequestFromUpstream`, or an `UnregisterSubscription` that calls
  `CancelUpstream` or `Shutdown`. Those port methods are modelled on their own, as the entry
  points the base class calls.
- The pump and its phases (`IPump`, `TransferPhase`, `InitialPhase`, the transfer-state
  combinators) are not part of this model. `RunningPhase` is one pump step. It checks the
  running phase's condition (input ready AND demand available) and runs its action once. The
  completion half of the transfer states, and the pump's repeat-until-not-ready loop, are not
  modelled.
- The input port (`PrimaryInputs`): its readiness and the element it dequeues are parameters of
  `RunningPhase`. Its `Cancel` and `DequeueInputElement` appear only as logged calls.
- `SubscribePending`: the subscribers that `ExposedPublisher.TakePendingSubscribers()` returns
  are a parameter, because the publisher is outside this model.
- The `ExposedPublisher` message is modelled with a publisher that is always present. A null
  publisher inside that message is not modelled. The port's publisher field is still optional,
  because it is unset before initialisation, which is where the source's `?.` calls matter.
- Fanout.FanoutOutputs.Receive: the pump is the processor itself (FanoutProcessorImpl.cs:146), and in
  the source its `Pump()` call during `RequestMore` and `Cancel` (FanoutProcessorImpl.cs:72, 78)
  runs `RunningPhase`, `Fail` or `PumpFinished` synchronously, which can lower demand or close
  the port. The model logs that call without running it, so the clauses saying demand and the
  closed flag are unchanged describe the port's own code only.
- Fanout.FanoutOutputs.EnqueueOutputElement: requires `IsDemandAvailable()`. The code subtracts
  without any check. Demand stays non-negative only because the pump runs the running phase
  when demand is available, and the precondition states that dependency.
- Base64Encoding.Base64Encode: accepts only values in [0, long.MaxValue]. For a negative value
  the source loop never terminates (`NegativeNeverReachesZero`), so there is no result to model.
- Exceptions are values: `Cause` for the failure reasons passed through, and `StreamError` for
  the two errors the stage raises itself. Their messages and types beyond that are not modelled.
- Actor plumbing is not modelled: `Props`, `Deploy.Local`, `IActorRef`, `CreateSubscription`,
  `AfterFlush` stopping the actor (modelled only as the after-shutdown hook being called), and
  the debug logging in `Fail`.
- `Base64Encode(this string)` is not modelled. It is standard RFC 4648 base64 of the UTF-8 bytes,
  computed entirely by .NET library calls.
- The remaining files of the repository are not part of this model. They are the TestKit string
  matcher and calling-thread dispatcher, the TCK publisher test, and two files with interface
  declarations only.
- The port itself does not check `RequestMore` demand or duplicate subscribers; it forwards
  them to the base class. Its terminal state is a closed flag separate from the receive
  behaviour, not a third handler state, and the model keeps it that way.
