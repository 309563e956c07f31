/**
  The process-wide factory. Its state is static in the C# class; here it is
  one object whose constructor plays the static initialiser. Handlers are
  built without any callback and clients are returned unconfigured.
 */
module StaticFactory {
  import opened Rotation
  import opened HandlerQueues

  class HttpClientFactoryStatic {
    const handlerQueue: HandlerQueue
    var pending: seq<HandlerId>
    var disposed: set<HandlerId>
    var nextId: nat
    /** Kept so that the model can state that no handler callback ever runs. */
    var handlerActionRuns: seq<nat>

    function Snapshot(): State
      reads this, handlerQueue
    {
      State(handlerQueue.items, pending, disposed, nextId, handlerActionRuns)
    }

    ghost predicate Valid()
      reads this, handlerQueue
    {
      Inv(Snapshot(), false)
    }

    /** The static initialiser: subscribe the tick and enqueue one plain handler. */
    constructor ()
      ensures Valid() && fresh(handlerQueue)
      ensures Snapshot() == Seed(false)
    {
      handlerQueue := new HandlerQueue();
      pending, disposed, nextId, handlerActionRuns := [], {}, 0, [];
      new;
      RegisterHandler();
      SeedIsValid(false);
    }

    /** Enqueues a plain handler, to which no callback is applied. */
    method RegisterHandler()
      modifies this, handlerQueue
      ensures Snapshot() == Register(old(Snapshot()), false, false)
    {
      var handler := NewHandler();
      handlerQueue.Enqueue(handler);
    }

    /** Allocates a plain handler; nothing can make this fail. */
    method NewHandler() returns (handler: HandlerId)
      modifies this
      ensures Build(old(Snapshot()), false, false) == BuildResult(Snapshot(), Some(handler))
      ensures handler == old(nextId) && handlerActionRuns == old(handlerActionRuns) + [0]
    {
      handler := nextId;
      nextId, handlerActionRuns := nextId + 1, handlerActionRuns + [0];
    }

    /** A timer tick: enqueue a plain handler, dequeue the oldest one and start its grace delay. */
    method TimerOnElapsed() returns (outcome: TickOutcome)
      modifies this, handlerQueue
      ensures Snapshot() == Tick(old(Snapshot()), false, false).after
      ensures outcome == Tick(old(Snapshot()), false, false).outcome
      ensures outcome != HandlerNotFound
      ensures old(Valid()) ==> Valid()
      ensures old(Valid()) ==> outcome == Rotated(old(handlerQueue.items[0]), old(nextId)) && handlerQueue.items == [old(nextId)]
    {
      ghost var before := Snapshot();
      var handler := NewHandler();
      handlerQueue.Enqueue(handler);
      var previous := handlerQueue.TryDequeue();
      if previous.None? {
        return HandlerNotFound;
      }
      pending := pending + [previous.value];
      outcome := Rotated(previous.value, handler);
      TickNeverMissesHandler(before, false, false);
      if Inv(before, false) {
        TickPreservesInv(before, false, false);
        TickRotates(before, false, false);
      }
    }

    /** The oldest running grace delay expires and its handler is disposed. */
    method GraceElapsed() returns (released: Option<HandlerId>)
      modifies this
      ensures Snapshot() == Release(old(Snapshot())).after
      ensures released == Release(old(Snapshot())).released
      ensures old(Valid()) ==> Valid()
      ensures old(Valid()) && released.Some? ==> released.value !in old(disposed) && released.value != handlerQueue.items[0]
    {
      ghost var before := Snapshot();
      if pending == [] {
        return None;
      }
      released := Some(pending[0]);
      disposed := disposed + {pending[0]};
      pending := pending[1..];
      if Inv(before, false) {
        ReleasePreservesInv(before, false);
        ReleaseDisposesOnlyRetired(before, false);
      }
    }

    /**
      Peeks the head handler without checking the peek and returns a
      non-owning, unconfigured client bound to it. A failed peek would hand a
      null handler to the client, which rejects it.
     */
    method GetClient() returns (r: ClientResult)
      ensures r == StaticGetClient(Snapshot())
      ensures r.Failure? <==> handlerQueue.items == []
      ensures Valid() ==> r.Success? && r.client.handler + 1 == nextId && r.client.handler !in disposed
    {
      var peeked := handlerQueue.TryPeek();
      // The unchecked peek leaves a null handler, and the client constructor rejects null.
      if peeked.None? {
        return Failure(NullHandler);
      }
      r := Success(Client(peeked.value, false, 0));
    }
  }
}
