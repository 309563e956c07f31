/**
  The instance-scoped factory: each object owns its handler queue, rotates
  it on every timer tick, releases each retired handler when its grace delay
  expires, and hands out non-owning clients bound to the head handler.

  The two optional callbacks are modelled by whether they were supplied and
  by whether they raise on a given call; their effects are the counters in
  the state and on the client.
 */
module Factory {
  import opened Rotation
  import opened HandlerQueues

  class HttpClientFactory {
    const handlerQueue: HandlerQueue
    /** Handlers whose grace delay is running, in retirement order. */
    var pending: seq<HandlerId>
    var disposed: set<HandlerId>
    var nextId: nat
    var handlerActionRuns: seq<nat>
    var factoryName: string
    /** Whether a client callback and a handler callback were supplied (non-null). */
    const hasClientAction: bool
    const hasHandlerAction: bool

    /** The abstract state of this factory. */
    function Snapshot(): State
      reads this, handlerQueue
    {
      State(handlerQueue.items, pending, disposed, nextId, handlerActionRuns)
    }

    ghost predicate Valid()
      reads this, handlerQueue
    {
      Inv(Snapshot(), hasHandlerAction)
    }

    /**
      The three public constructors in one: a name, and whether a client
      callback and a handler callback are supplied. Construction subscribes
      the tick (the timer is not modelled) and then registers the seed
      handler. If the handler callback raises there (`seedActionThrows`), the
      C# constructor raises, but the object stays subscribed to its running
      timer with an empty queue; that object is the one returned here.
     */
    constructor (name: string, clientAction: bool, handlerAction: bool, seedActionThrows: bool)
      ensures fresh(handlerQueue)
      ensures Snapshot() == Register(Empty(), handlerAction, seedActionThrows)
      ensures !(handlerAction && seedActionThrows) ==> Valid() && Snapshot() == Seed(handlerAction)
      ensures handlerAction && seedActionThrows ==> Snapshot() == Empty()
      ensures factoryName == name && hasClientAction == clientAction && hasHandlerAction == handlerAction
    {
      handlerQueue := new HandlerQueue();
      pending, disposed, nextId, handlerActionRuns := [], {}, 0, [];
      factoryName := name;
      hasClientAction, hasHandlerAction := clientAction, handlerAction;
      new;
      var registered := RegisterHandler(seedActionThrows);
      SeedIsValid(handlerAction);
    }

    /**
      Builds a handler and enqueues it; a raising handler callback
      (`actionThrows`) stops it before the enqueue, with nothing changed.
     */
    method RegisterHandler(actionThrows: bool) returns (registered: bool)
      modifies this, handlerQueue
      ensures Snapshot() == Register(old(Snapshot()), hasHandlerAction, actionThrows)
      ensures registered <==> !(hasHandlerAction && actionThrows)
      ensures registered ==> handlerQueue.items == old(handlerQueue.items) + [old(nextId)]
      ensures factoryName == old(factoryName)
    {
      var handler := GetHandler(actionThrows);
      if handler.None? {
        return false;
      }
      handlerQueue.Enqueue(handler.value);
      registered := true;
    }

    /**
      Builds a handler and runs the handler callback on it once when one was
      supplied; `actionThrows` says whether that callback raises, in which
      case no handler results and nothing else changes.
     */
    method GetHandler(actionThrows: bool) returns (handler: Option<HandlerId>)
      modifies this
      ensures Snapshot() == Build(old(Snapshot()), hasHandlerAction, actionThrows).after
      ensures handler == Build(old(Snapshot()), hasHandlerAction, actionThrows).handler
      ensures handler.Some? <==> !(hasHandlerAction && actionThrows)
      ensures handler.Some? ==> handler.value == old(nextId) && handlerActionRuns == old(handlerActionRuns) + [Runs(hasHandlerAction)]
      ensures factoryName == old(factoryName)
    {
      var built := nextId;
      if !hasHandlerAction {
        nextId, handlerActionRuns := nextId + 1, handlerActionRuns + [0];
        return Some(built);
      }
      if actionThrows {
        return None;
      }
      nextId, handlerActionRuns := nextId + 1, handlerActionRuns + [1];
      handler := Some(built);
    }

    /**
      A timer tick: enqueue a freshly built handler, dequeue the oldest one
      and start its grace delay. From a valid state the tick never reports a
      missing handler and leaves exactly the new handler queued.
     */
    method TimerOnElapsed(actionThrows: bool) returns (outcome: TickOutcome)
      modifies this, handlerQueue
      ensures Snapshot() == Tick(old(Snapshot()), hasHandlerAction, actionThrows).after
      ensures outcome == Tick(old(Snapshot()), hasHandlerAction, actionThrows).outcome
      ensures outcome != HandlerNotFound
      ensures old(Valid()) ==> Valid()
      ensures old(Valid()) && !(hasHandlerAction && actionThrows) ==>
        outcome == Rotated(old(handlerQueue.items[0]), old(nextId)) && handlerQueue.items == [old(nextId)]
      ensures factoryName == old(factoryName)
    {
      ghost var before := Snapshot();
      var handler := GetHandler(actionThrows);
      if handler.None? {
        return BuildFailed;
      }
      handlerQueue.Enqueue(handler.value);
      var previous := handlerQueue.TryDequeue();
      if previous.None? {
        return HandlerNotFound;
      }
      // The grace delay of the previous handler starts; its disposal is GraceElapsed.
      pending := pending + [previous.value];
      outcome := Rotated(previous.value, handler.value);
      TickNeverMissesHandler(before, hasHandlerAction, actionThrows);
      if Inv(before, hasHandlerAction) {
        TickPreservesInv(before, hasHandlerAction, actionThrows);
        TickRotates(before, hasHandlerAction, actionThrows);
      }
    }

    /** The oldest running grace delay expires and its handler is disposed. */
    method GraceElapsed() returns (released: Option<HandlerId>)
      modifies this
      ensures Snapshot() == Release(old(Snapshot())).after
      ensures released == Release(old(Snapshot())).released
      ensures old(Valid()) ==> Valid()
      ensures old(Valid()) && released.Some? ==> released.value !in old(disposed) && released.value != handlerQueue.items[0]
      ensures factoryName == old(factoryName)
    {
      ghost var before := Snapshot();
      if pending == [] {
        return None;
      }
      released := Some(pending[0]);
      disposed := disposed + {pending[0]};
      pending := pending[1..];
      if Inv(before, hasHandlerAction) {
        ReleasePreservesInv(before, hasHandlerAction);
        ReleaseDisposesOnlyRetired(before, hasHandlerAction);
      }
    }

    /**
      Peeks the head handler without removing it and returns a non-owning
      client bound to it, configured once by the client callback when one was
      supplied. Fails when the queue is empty, which a valid factory's never
      is, or when the client callback raises (`clientActionThrows`).
     */
    method GetClient(clientActionThrows: bool) returns (r: ClientResult)
      ensures r == Rotation.GetClient(Snapshot(), hasClientAction, clientActionThrows)
      ensures r.Failure? <==> handlerQueue.items == [] || (hasClientAction && clientActionThrows)
      ensures Valid() ==> (r.Success? <==> !(hasClientAction && clientActionThrows))
      ensures Valid() && r.Success? ==> r.client.handler + 1 == nextId && r.client.handler !in disposed
    {
      var peeked := handlerQueue.TryPeek();
      if peeked.None? {
        return Failure(NoHandlerEnqueued);
      }
      var client := Client(peeked.value, false, 0);
      if hasClientAction {
        if clientActionThrows {
          return Failure(ClientActionFailed);
        }
        client := client.(actionRuns := client.actionRuns + 1);
      }
      r := Success(client);
    }
  }

  /**
    Two factories rotate independently: a tick of one leaves the other's
    queue, current handler and pending releases as they were.
   */
  method TickOneOfTwo(a: HttpClientFactory, b: HttpClientFactory, actionThrows: bool) returns (outcome: TickOutcome)
    requires a != b && a.handlerQueue != b.handlerQueue
    modifies a, a.handlerQueue
    ensures a.Snapshot() == Tick(old(a.Snapshot()), a.hasHandlerAction, actionThrows).after
    ensures b.Snapshot() == old(b.Snapshot())
  {
    outcome := a.TimerOnElapsed(actionThrows);
  }
}
