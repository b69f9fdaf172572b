/**
 * The fan-out stage of Akka Streams (Akka.Streams.Implementation):
 * FanoutOutputs, the output port that turns subscription messages into calls on
 * the subscriber/cursor buffer manager it extends, keeps the aggregate demand
 * counter and the closed flag, and shuts the exposed publisher down; and
 * FanoutProcessorImpl, the processor whose single running phase moves one element
 * from its input port to that output port.
 *
 * The buffer manager (SubscriberManagement), the pump, the input port and the
 * exposed publisher are collaborators whose code is not part of this model. Every
 * call made to them is appended to the ghost log `calls` of the output port, so
 * contracts can say exactly which collaborator was called, with what, how often
 * and in which order.
 */
module Fanout {

  import opened Long

  datatype Option<T> = None | Some(value: T)

  // ---------------------------------------------------------------------------
  // Values exchanged with the collaborators
  // ---------------------------------------------------------------------------

  /** The exposed publisher front end (IActorPublisher). */
  datatype PublisherRef = PublisherRef(id: nat)

  /** A subscriber waiting in the exposed publisher to be registered. */
  datatype SubscriberRef = SubscriberRef(id: nat)

  /** A subscription created by the buffer manager (ActorSubscriptionWithCursor). */
  datatype SubscriptionRef = SubscriptionRef(id: nat)

  /** An exception passed along as a failure reason. NormalShutdownReason is
      ActorPublisher.NormalShutdownReason; the other exceptions are told apart by id. */
  datatype Cause = NormalShutdownReason | Failure(id: nat)

  /** Exceptions this stage throws itself. */
  datatype StreamError =
    | IllegalState   // IllegalStateException: the first message was not ExposedPublisher
    | NullElement    // the element-must-not-be-null check of rule 2.13 of Reactive Streams

  /** The messages delivered to the port's SubReceive. */
  datatype Message =
    | ExposedPublisher(publisher: PublisherRef)
    | SubscribePending
    | RequestMore(subscription: SubscriptionRef, demand: int)
    | Cancel(subscription: SubscriptionRef)
    | Other(tag: nat)

  /** The behaviour SubReceive currently runs. */
  datatype Handler = AwaitingExposedPublisher | DownstreamRunning

  /** What a receive did: returned whether it handled the message, or threw. */
  datatype ReceiveResult = Returned(handled: bool) | Raised(error: StreamError)

  /** Outcome of a call that either returns normally or throws. */
  datatype Status = Ok | Failed(error: StreamError)

  /** Outcome of one pump step of the processor's running phase. */
  datatype Transfer = NotReady | Transferred | TransferFailed(error: StreamError)

  /** One call made by the stage into code outside this model. */
  datatype Call<T> =
    | RegisterSubscriber(subscriber: SubscriberRef)                // SubscriberManagement
    | MoreRequested(subscription: SubscriptionRef, demand: int)    // SubscriberManagement
    | UnregisterSubscription(subscription: SubscriptionRef)        // SubscriberManagement
    | PushToDownstream(element: T)                                 // SubscriberManagement
    | CompleteDownstream                                           // SubscriberManagement
    | AbortDownstream(cause: Cause)                                // SubscriberManagement
    | Pump                                                         // IPump.Pump
    | ShutdownPublisher(publisher: PublisherRef, reason: Option<Cause>)  // IActorPublisher.Shutdown
    | AfterShutdown                                                // the after-shutdown hook
    | DequeueInput                                                 // input port
    | CancelInput                                                  // input port

  /** The registrations SubscribePending makes, one per pending subscriber, in order. */
  function Registrations<T>(subscribers: seq<SubscriberRef>): (r: seq<Call<T>>)
    ensures |r| == |subscribers|
    ensures forall i :: 0 <= i < |r| ==> r[i] == RegisterSubscriber(subscribers[i])
  {
    if subscribers == [] then []
    else Registrations(subscribers[..|subscribers| - 1]) + [RegisterSubscriber(subscribers[|subscribers| - 1])]
  }

  /** The shutdown call made on the exposed publisher, if one is set. */
  function PublisherShutdown<T>(publisher: Option<PublisherRef>, reason: Option<Cause>): seq<Call<T>> {
    match publisher
    case None => []
    case Some(p) => [ShutdownPublisher(p, reason)]
  }

  /** The calls the running behaviour makes for a message: registrations for
      SubscribePending, the forwarded request or cancellation followed by a pump for
      RequestMore and Cancel, and none for anything else. */
  function RunningCalls<T>(message: Message, pending: seq<SubscriberRef>): seq<Call<T>> {
    match message
    case SubscribePending => Registrations(pending)
    case RequestMore(s, n) => [MoreRequested(s, n), Pump]
    case Cancel(s) => [UnregisterSubscription(s), Pump]
    case _ => []
  }

  /** How many times a call occurs in a log. */
  ghost function Occurrences<T>(calls: seq<Call<T>>, c: Call<T>): nat {
    if calls == [] then 0
    else Occurrences(calls[..|calls| - 1], c) + (if calls[|calls| - 1] == c then 1 else 0)
  }

  /** Registering pending subscribers never triggers the pump. */
  lemma {:induction false} RegistrationsDoNotPump<T>(subscribers: seq<SubscriberRef>)
    ensures Occurrences(Registrations<T>(subscribers), Pump) == 0
    decreases |subscribers|
  {
    if subscribers != [] {
      var r := Registrations<T>(subscribers);
      assert r[..|r| - 1] == Registrations<T>(subscribers[..|subscribers| - 1]);
      RegistrationsDoNotPump<T>(subscribers[..|subscribers| - 1]);
    }
  }

  /** In the running state, RequestMore and Cancel each trigger exactly one pump, after
      the call that forwards them; SubscribePending triggers none; and a message the
      running behaviour does not handle calls nothing. */
  lemma RunningBehaviourPumps<T>(message: Message, pending: seq<SubscriberRef>)
    ensures Occurrences(RunningCalls<T>(message, pending), Pump)
      == if message.RequestMore? || message.Cancel? then 1 else 0
    ensures message.RequestMore? || message.Cancel? ==>
      var r := RunningCalls<T>(message, pending);
      |r| == 2 && r[1] == Pump
    ensures message.RequestMore? ==>
      Occurrences(RunningCalls<T>(message, pending), MoreRequested(message.subscription, message.demand)) == 1
    ensures message.Cancel? ==>
      Occurrences(RunningCalls<T>(message, pending), UnregisterSubscription(message.subscription)) == 1
    ensures !(message.SubscribePending? || message.RequestMore? || message.Cancel?) ==>
      RunningCalls<T>(message, pending) == []
  {
    var r := RunningCalls<T>(message, pending);
    if message.SubscribePending? {
      RegistrationsDoNotPump<T>(pending);
    } else if message.RequestMore? || message.Cancel? {
      assert r[..1] == [r[0]] && [r[0]][..0] == [];
      assert Occurrences([r[0]], Pump) == 0;
      assert Occurrences([r[0]], r[0]) == 1;
    }
  }

  // ---------------------------------------------------------------------------
  // FanoutOutputs<T>
  // ---------------------------------------------------------------------------

  class FanoutOutputs<T> {
    const maxBufferSize: int
    const initialBufferSize: int
    /** Whether an after-shutdown hook was supplied (it is optional). */
    const hasAfterShutdown: bool

    var handler: Handler
    var downstreamBufferSpace: int
    var downstreamCompleted: bool
    var exposedPublisher: Option<PublisherRef>

    /** Every call made into collaborators, oldest first. */
    ghost var calls: seq<Call<T>>
    /** Total demand requested from upstream so far, and elements enqueued so far. */
    ghost var granted: int
    ghost var enqueued: nat

    /** The demand counter is the outstanding demand (granted minus enqueued) in
        64-bit two's complement, and a publisher is set exactly once running. */
    ghost predicate Valid()
      reads this
    {
      && downstreamBufferSpace == WrapLong(granted - enqueued)
      && (handler == AwaitingExposedPublisher ==> exposedPublisher == None)
      && (handler == DownstreamRunning ==> exposedPublisher.Some?)
    }

    function DemandCount(): int
      reads this
    {
      downstreamBufferSpace
    }

    predicate IsDemandAvailable()
      reads this
    {
      downstreamBufferSpace > 0
    }

    predicate IsClosed()
      reads this
    {
      downstreamCompleted
    }

    predicate IsOpen()
      reads this
    {
      !IsClosed()
    }

    constructor (maxBufferSize: int, initialBufferSize: int, hasAfterShutdown: bool)
      ensures Valid()
      ensures this.maxBufferSize == maxBufferSize && this.initialBufferSize == initialBufferSize
      ensures this.hasAfterShutdown == hasAfterShutdown
      ensures handler == AwaitingExposedPublisher && exposedPublisher == None
      ensures DemandCount() == 0 && IsOpen()
      ensures calls == [] && granted == 0 && enqueued == 0
    {
      this.maxBufferSize := maxBufferSize;
      this.initialBufferSize := initialBufferSize;
      this.hasAfterShutdown := hasAfterShutdown;
      handler := AwaitingExposedPublisher;
      downstreamBufferSpace := 0;
      downstreamCompleted := false;
      exposedPublisher := None;
      calls := [];
      granted := 0;
      enqueued := 0;
    }

    /** SubReceive: runs the current behaviour on a message. Before the exposed
        publisher arrives any other message throws; afterwards DownstreamRunning
        decides. The pending subscribers are what the exposed publisher hands over
        when SubscribePending asks for them. */
    method Receive(message: Message, pending: seq<SubscriberRef>) returns (r: ReceiveResult)
      requires Valid()
      modifies this`handler, this`exposedPublisher, this`calls
      ensures Valid()
      ensures downstreamBufferSpace == old(downstreamBufferSpace)
      ensures downstreamCompleted == old(downstreamCompleted)
      ensures granted == old(granted) && enqueued == old(enqueued)
      ensures old(handler) == AwaitingExposedPublisher && message.ExposedPublisher? ==>
        && r == Returned(true)
        && handler == DownstreamRunning
        && exposedPublisher == Some(message.publisher)
        && calls == old(calls)
      ensures old(handler) == AwaitingExposedPublisher && !message.ExposedPublisher? ==>
        && r == Raised(IllegalState)
        && handler == AwaitingExposedPublisher
        && exposedPublisher == old(exposedPublisher)
        && calls == old(calls)
      ensures old(handler) == DownstreamRunning ==>
        && handler == DownstreamRunning
        && exposedPublisher == old(exposedPublisher)
        && r.Returned?
        && r.handled == (message.SubscribePending? || message.RequestMore? || message.Cancel?)
        && calls == old(calls) + RunningCalls(message, pending)
    {
      if handler == AwaitingExposedPublisher {
        r := AwaitExposedPublisher(message);
      } else {
        var handled := DownstreamRunningReceive(message, pending);
        r := Returned(handled);
      }
    }

    /** The initial behaviour: only ExposedPublisher is accepted. */
    method AwaitExposedPublisher(message: Message) returns (r: ReceiveResult)
      requires Valid() && handler == AwaitingExposedPublisher
      modifies this`handler, this`exposedPublisher
      ensures Valid()
      ensures message.ExposedPublisher? ==>
        r == Returned(true) && handler == DownstreamRunning && exposedPublisher == Some(message.publisher)
      ensures !message.ExposedPublisher? ==>
        r == Raised(IllegalState) && handler == old(handler) && exposedPublisher == old(exposedPublisher)
    {
      if !message.ExposedPublisher? {
        return Raised(IllegalState);
      }
      exposedPublisher := Some(message.publisher);
      handler := DownstreamRunning;
      r := Returned(true);
    }

    /** The running behaviour. */
    method DownstreamRunningReceive(message: Message, pending: seq<SubscriberRef>) returns (handled: bool)
      requires Valid() && handler == DownstreamRunning
      modifies this`calls
      ensures Valid()
      ensures handled == (message.SubscribePending? || message.RequestMore? || message.Cancel?)
      ensures calls == old(calls) + RunningCalls(message, pending)
    {
      if message.SubscribePending? {
        SubscribePendingSubscribers(pending);
      } else if message.RequestMore? {
        calls := calls + [MoreRequested(message.subscription, message.demand)];
        calls := calls + [Pump];
      } else if message.Cancel? {
        calls := calls + [UnregisterSubscription(message.subscription)];
        calls := calls + [Pump];
      } else {
        return false;
      }
      handled := true;
    }

    /** Registers, in order, each subscriber that subscribed before the port ran. */
    method SubscribePendingSubscribers(pending: seq<SubscriberRef>)
      requires Valid()
      modifies this`calls
      ensures Valid()
      ensures calls == old(calls) + Registrations(pending)
    {
      var i := 0;
      while i < |pending|
        invariant 0 <= i <= |pending|
        invariant calls == old(calls) + Registrations(pending[..i])
      {
        assert pending[..i + 1][..i] == pending[..i];
        calls := calls + [RegisterSubscriber(pending[i])];
        i := i + 1;
      }
      assert pending[..i] == pending;
    }

    /** Called by the buffer manager when subscribers have asked for more elements
        than upstream was asked for: unchecked `long` addition. */
    method RequestFromUpstream(elements: int)
      requires Valid() && IsLong(elements)
      modifies this`downstreamBufferSpace, this`granted
      ensures Valid()
      ensures DemandCount() == WrapLong(old(DemandCount()) + elements)
      ensures IsLong(old(DemandCount()) + elements) ==> DemandCount() == old(DemandCount()) + elements
      ensures granted == old(granted) + elements
    {
      WrapLongAdd(granted - enqueued, elements);
      downstreamBufferSpace := WrapLong(downstreamBufferSpace + elements);
      granted := granted + elements;
    }

    /** Shuts the exposed publisher down (with the normal-shutdown reason unless the
        stream completed) and then runs the after-shutdown hook. */
    method Shutdown(isCompleted: bool)
      requires Valid()
      modifies this`calls
      ensures Valid()
      ensures calls == old(calls)
        + PublisherShutdown(exposedPublisher, if isCompleted then None else Some(NormalShutdownReason))
        + (if hasAfterShutdown then [AfterShutdown] else [])
    {
      calls := calls + PublisherShutdown(exposedPublisher, if isCompleted then None else Some(NormalShutdownReason));
      if hasAfterShutdown {
        calls := calls + [AfterShutdown];
      }
    }

    /** Called by the buffer manager once no subscriber is left: closes the port
        without signalling downstream. */
    method CancelUpstream()
      requires Valid()
      modifies this`downstreamCompleted
      ensures Valid()
      ensures IsClosed()
    {
      downstreamCompleted := true;
    }

    /** Pushes one element downstream, consuming one unit of demand. The pump only
        calls it while demand is available, which the precondition makes explicit:
        the code itself subtracts without any check. */
    method EnqueueOutputElement(element: Option<T>) returns (status: Status)
      requires Valid() && IsDemandAvailable()
      modifies this`downstreamBufferSpace, this`calls, this`enqueued
      ensures Valid()
      ensures element.None? ==>
        && status == Failed(NullElement)
        && DemandCount() == old(DemandCount()) && calls == old(calls) && enqueued == old(enqueued)
      ensures element.Some? ==>
        && status == Ok
        && DemandCount() == old(DemandCount()) - 1
        && enqueued == old(enqueued) + 1
        && calls == old(calls) + [PushToDownstream(element.value)]
    {
      if element.None? {
        return Failed(NullElement);
      }
      WrapLongAdd(granted - enqueued, -1);
      downstreamBufferSpace := downstreamBufferSpace - 1;
      enqueued := enqueued + 1;
      calls := calls + [PushToDownstream(element.value)];
      status := Ok;
    }

    /** Completes every subscriber, once. */
    method Complete()
      requires Valid()
      modifies this`downstreamCompleted, this`calls
      ensures Valid()
      ensures IsClosed()
      ensures calls == old(calls) + (if old(IsOpen()) then [CompleteDownstream] else [])
    {
      if downstreamCompleted {
        return;
      }
      downstreamCompleted := true;
      calls := calls + [CompleteDownstream];
    }

    /** Self-cancellation is completion. */
    method Cancel()
      requires Valid()
      modifies this`downstreamCompleted, this`calls
      ensures Valid()
      ensures IsClosed()
      ensures calls == old(calls) + (if old(IsOpen()) then [CompleteDownstream] else [])
    {
      Complete();
    }

    /** Fails every subscriber with e and then tells the exposed publisher, once. */
    method Error(e: Cause)
      requires Valid()
      modifies this`downstreamCompleted, this`calls
      ensures Valid()
      ensures IsClosed()
      ensures calls == old(calls)
        + (if old(IsOpen()) then [AbortDownstream(e)] + PublisherShutdown(exposedPublisher, Some(e)) else [])
    {
      if downstreamCompleted {
        return;
      }
      downstreamCompleted := true;
      calls := calls + [AbortDownstream(e)];
      calls := calls + PublisherShutdown(exposedPublisher, Some(e));
    }
  }

  /** While the total demand granted minus the elements enqueued fits in a long, the
      counter is exactly that difference, so demand is available exactly when fewer
      elements were enqueued than were requested from upstream. */
  lemma DemandIsOutstandingRequests<T>(o: FanoutOutputs<T>)
    requires o.Valid() && IsLong(o.granted - o.enqueued)
    ensures o.DemandCount() == o.granted - o.enqueued
    ensures o.IsDemandAvailable() <==> o.enqueued < o.granted
  {
  }

  /** Complete twice has the effect of completing once. */
  method CompleteTwice<T>(o: FanoutOutputs<T>)
    requires o.Valid()
    modifies o`downstreamCompleted, o`calls
    ensures o.Valid()
    ensures o.IsClosed()
    ensures o.calls == old(o.calls) + (if old(o.IsOpen()) then [CompleteDownstream] else [])
  {
    o.Complete();
    o.Complete();
  }

  /** Once a port is closed, neither Error nor Cancel calls anything. */
  method TerminateAfterComplete<T>(o: FanoutOutputs<T>, e: Cause)
    requires o.Valid()
    modifies o`downstreamCompleted, o`calls
    ensures o.Valid()
    ensures o.IsClosed()
    ensures o.calls == old(o.calls) + (if old(o.IsOpen()) then [CompleteDownstream] else [])
  {
    o.Complete();
    o.Error(e);
    o.Cancel();
  }

  // ---------------------------------------------------------------------------
  // FanoutProcessorImpl<T>
  // ---------------------------------------------------------------------------

  class FanoutProcessorImpl<T> {
    /** PrimaryOutputs. Its after-shutdown hook is AfterFlush, which stops the actor. */
    const outputs: FanoutOutputs<T>

    ghost predicate Valid()
      reads this, outputs
    {
      outputs.Valid()
    }

    constructor (maxInputBufferSize: int, initialInputBufferSize: int)
      ensures Valid() && fresh(outputs)
      ensures outputs.maxBufferSize == maxInputBufferSize
      ensures outputs.initialBufferSize == initialInputBufferSize
      ensures outputs.hasAfterShutdown
      ensures outputs.handler == AwaitingExposedPublisher && outputs.IsOpen()
      ensures outputs.DemandCount() == 0 && outputs.calls == []
    {
      outputs := new FanoutOutputs(maxInputBufferSize, initialInputBufferSize, true);
    }

    /** The running phase's transfer state: input ready AND demand available. */
    predicate RunningPhaseReady(inputReady: bool)
      reads this, outputs
    {
      inputReady && outputs.IsDemandAvailable()
    }

    /** One pump step under the running phase. If the input port has an element and
        the output port has demand, the element it dequeues (`element`) is enqueued
        on the output port; otherwise nothing happens. */
    method RunningPhase(inputReady: bool, element: Option<T>) returns (r: Transfer)
      requires Valid()
      modifies outputs`downstreamBufferSpace, outputs`calls, outputs`enqueued
      ensures Valid()
      ensures !old(RunningPhaseReady(inputReady)) ==> r == NotReady && unchanged(outputs)
      ensures old(RunningPhaseReady(inputReady)) && element.None? ==>
        && r == TransferFailed(NullElement)
        && outputs.calls == old(outputs.calls) + [DequeueInput]
        && outputs.DemandCount() == old(outputs.DemandCount())
        && outputs.enqueued == old(outputs.enqueued)
      ensures old(RunningPhaseReady(inputReady)) && element.Some? ==>
        && r == Transferred
        && outputs.calls == old(outputs.calls) + [DequeueInput, PushToDownstream(element.value)]
        && outputs.DemandCount() == old(outputs.DemandCount()) - 1
        && outputs.enqueued == old(outputs.enqueued) + 1
      ensures outputs.handler == old(outputs.handler) && outputs.IsClosed() == old(outputs.IsClosed())
      ensures outputs.exposedPublisher == old(outputs.exposedPublisher) && outputs.granted == old(outputs.granted)
    {
      if !RunningPhaseReady(inputReady) {
        return NotReady;
      }
      outputs.calls := outputs.calls + [DequeueInput];
      var status := outputs.EnqueueOutputElement(element);
      r := if status.Ok? then Transferred else TransferFailed(status.error);
    }

    /** Failure of the stage: cancel the input, then error the output. */
    method Fail(e: Cause)
      requires Valid()
      modifies outputs`calls, outputs`downstreamCompleted
      ensures Valid()
      ensures outputs.IsClosed()
      ensures outputs.calls == old(outputs.calls) + [CancelInput]
        + (if old(outputs.IsOpen())
           then [AbortDownstream(e)] + PublisherShutdown(outputs.exposedPublisher, Some(e))
           else [])
      ensures outputs.exposedPublisher == old(outputs.exposedPublisher) && outputs.handler == old(outputs.handler)
      ensures outputs.DemandCount() == old(outputs.DemandCount())
    {
      outputs.calls := outputs.calls + [CancelInput];
      outputs.Error(e);
    }

    /** Upstream is exhausted: cancel the input, then complete the output. */
    method PumpFinished()
      requires Valid()
      modifies outputs`calls, outputs`downstreamCompleted
      ensures Valid()
      ensures outputs.IsClosed()
      ensures outputs.calls == old(outputs.calls) + [CancelInput]
        + (if old(outputs.IsOpen()) then [CompleteDownstream] else [])
      ensures outputs.exposedPublisher == old(outputs.exposedPublisher) && outputs.handler == old(outputs.handler)
      ensures outputs.DemandCount() == old(outputs.DemandCount())
    {
      outputs.calls := outputs.calls + [CancelInput];
      outputs.Complete();
    }
  }

  /** A processor that received its exposed publisher, moved one element downstream
      and then failed has aborted its subscribers and shut that publisher down with
      the failure, after cancelling its input. */
  method ExposeTransferFail<T>(p: FanoutProcessorImpl<T>, pub: PublisherRef, x: T, e: Cause)
    requires p.Valid() && p.outputs.handler == AwaitingExposedPublisher
    requires p.outputs.IsOpen() && p.outputs.IsDemandAvailable()
    modifies p.outputs`handler, p.outputs`exposedPublisher, p.outputs`calls
    modifies p.outputs`downstreamBufferSpace, p.outputs`enqueued, p.outputs`downstreamCompleted
    ensures p.Valid() && p.outputs.IsClosed() && p.outputs.exposedPublisher == Some(pub)
    ensures p.outputs.calls == old(p.outputs.calls)
      + [DequeueInput, PushToDownstream(x), CancelInput, AbortDownstream(e), ShutdownPublisher(pub, Some(e))]
  {
    var received := p.outputs.Receive(ExposedPublisher(pub), []);
    var transfer := p.RunningPhase(true, Some(x));
    p.Fail(e);
  }
}
