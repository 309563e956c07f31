/**
  The handler rotation state machine shared by both factory variants, written
  as pure functions on an explicit state. Each timer tick, each expiry of a
  grace delay and each client request is one atomic step.

  Handlers are opaque ids handed out in creation order; a client is the id of
  the handler it is bound to, its ownership flag and the number of times the
  client configuration callback ran on it.
 */
module Rotation {

  type HandlerId = nat

  datatype Option<T> = None | Some(value: T)

  /** A client bound to a handler; `disposeHandler` is the ownership flag passed to the client. */
  datatype Client = Client(handler: HandlerId, disposeHandler: bool, actionRuns: nat)

  datatype ClientError =
    | NoHandlerEnqueued   // the instance factory found the queue empty
    | NullHandler         // the static factory passed the failed peek's null to the client
    | ClientActionFailed  // the client configuration callback raised

  datatype ClientResult = Success(client: Client) | Failure(error: ClientError)

  /** How one timer tick ended. */
  datatype TickOutcome =
    | Rotated(retired: HandlerId, current: HandlerId)
    | BuildFailed       // the handler configuration callback raised; nothing was enqueued
    | HandlerNotFound   // the dequeue after the enqueue found nothing

  /**
    State of one rotation manager between steps.
    `queue` is the handler queue, head first; `pending` holds the retired
    handlers whose grace delay is still running, oldest first; `disposed`
    the handlers already released; `nextId` the id the next built handler
    receives; `actionRuns[h]` how many times the handler configuration
    callback ran on handler `h`.
   */
  datatype State = State(
    queue: seq<HandlerId>,
    pending: seq<HandlerId>,
    disposed: set<HandlerId>,
    nextId: nat,
    actionRuns: seq<nat>)

  datatype BuildResult = BuildResult(after: State, handler: Option<HandlerId>)
  datatype TickResult = TickResult(after: State, outcome: TickOutcome)
  datatype ReleaseResult = ReleaseResult(after: State, released: Option<HandlerId>)

  /** Times a callback runs per object: once when one is supplied, never otherwise. */
  function Runs(supplied: bool): nat {
    if supplied then 1 else 0
  }

  /** The state before any handler exists: an empty queue. */
  function Empty(): State {
    State([], [], {}, 0, [])
  }

  /**
    Building a handler: allocate a fresh one and, when a configuration
    callback is supplied, run it once on the new handler. A callback that
    raises leaves the state as it was and yields no handler.
   */
  function Build(s: State, configured: bool, actionThrows: bool): BuildResult {
    if configured && actionThrows then BuildResult(s, None)
    else BuildResult(s.(nextId := s.nextId + 1, actionRuns := s.actionRuns + [Runs(configured)]), Some(s.nextId))
  }

  /** Enqueueing the handler a successful build produced. */
  function Enqueue(b: BuildResult): State
    requires b.handler.Some?
  {
    b.after.(queue := b.after.queue + [b.handler.value])
  }

  /**
    Registering a handler: build one and enqueue it. When the callback
    raises, nothing is enqueued and the state is unchanged.
   */
  function Register(s: State, configured: bool, actionThrows: bool): State {
    var b := Build(s, configured, actionThrows);
    if b.handler.None? then s else Enqueue(b)
  }

  /** Construction: the empty queue seeded with one handler. */
  function Seed(configured: bool): State {
    Register(Empty(), configured, false)
  }

  /**
    One timer tick: build a handler, enqueue it, dequeue the oldest handler
    and start its grace delay. A failing dequeue is reported (and leaves the
    new handler enqueued); a failing build stops the tick before the enqueue.
   */
  function Tick(s: State, configured: bool, actionThrows: bool): TickResult {
    var b := Build(s, configured, actionThrows);
    if b.handler.None? then TickResult(s, BuildFailed)
    else
      var e := Enqueue(b);
      if |e.queue| == 0 then TickResult(e, HandlerNotFound)
      else TickResult(e.(queue := e.queue[1..], pending := e.pending + [e.queue[0]]), Rotated(e.queue[0], b.handler.value))
  }

  /**
    Expiry of the oldest running grace delay: that retired handler is
    disposed. All delays have the same length and start in retirement order,
    so they expire in that order. With no delay running nothing happens.
   */
  function Release(s: State): ReleaseResult {
    if s.pending == [] then ReleaseResult(s, None)
    else ReleaseResult(s.(pending := s.pending[1..], disposed := s.disposed + {s.pending[0]}), Some(s.pending[0]))
  }

  /**
    The instance factory's client request: peek, fail on an empty queue, bind
    a non-owning client, run the client callback on it when one is supplied;
    a raising callback makes the request fail.
   */
  function GetClient(s: State, clientConfigured: bool, clientActionThrows: bool): ClientResult {
    if s.queue == [] then Failure(NoHandlerEnqueued)
    else if clientConfigured && clientActionThrows then Failure(ClientActionFailed)
    else Success(Client(s.queue[0], false, Runs(clientConfigured)))
  }

  /** The static factory's client request: the peek is not checked and no callback runs. */
  function StaticGetClient(s: State): ClientResult {
    if s.queue == [] then Failure(NullHandler)
    else Success(Client(s.queue[0], false, 0))
  }

  ghost predicate Increasing(xs: seq<HandlerId>) {
    forall i, j :: 0 <= i < j < |xs| ==> xs[i] < xs[j]
  }

  /**
    The invariant every observable state keeps: the queue holds exactly the
    newest handler; every other handler built so far is either waiting out
    its grace delay or disposed, never both; the current handler is neither;
    and every handler had the configuration callback applied exactly as
    often as `Runs(configured)` says.
   */
  ghost predicate Inv(s: State, configured: bool) {
    && |s.actionRuns| == s.nextId
    && (forall h :: 0 <= h < |s.actionRuns| ==> s.actionRuns[h] == Runs(configured))
    && |s.queue| == 1
    && s.queue[0] + 1 == s.nextId
    && Increasing(s.pending)
    && (forall i :: 0 <= i < |s.pending| ==> s.pending[i] < s.queue[0] && s.pending[i] !in s.disposed)
    && (forall h :: h in s.disposed ==> h < s.queue[0])
    && (forall h: nat :: h < s.nextId ==> h in s.disposed || h in s.pending || h == s.queue[0])
  }

  /** The events that change a manager's state. */
  datatype Event = Elapsed(actionThrows: bool) | GraceOver

  function Step(s: State, configured: bool, e: Event): State {
    match e
    case Elapsed(actionThrows) => Tick(s, configured, actionThrows).after
    case GraceOver => Release(s).after
  }

  /** The state reached from `s` by the events `es`, in order. */
  function Run(s: State, configured: bool, es: seq<Event>): State
    decreases |es|
  {
    if es == [] then s else Run(Step(s, configured, es[0]), configured, es[1..])
  }

  /** The number of ticks in `es` whose handler build succeeds. */
  function Builds(configured: bool, es: seq<Event>): nat
    decreases |es|
  {
    if es == [] then 0
    else (if es[0].Elapsed? && !(configured && es[0].actionThrows) then 1 else 0) + Builds(configured, es[1..])
  }

  /** The number of grace expiries in `es`. */
  function GraceExpiries(es: seq<Event>): nat
    decreases |es|
  {
    if es == [] then 0 else (if es[0].GraceOver? then 1 else 0) + GraceExpiries(es[1..])
  }

  // ---------------------------------------------------------------------------
  // Construction

  /** Construction leaves exactly one freshly built handler in the queue, configured once when a callback is supplied. */
  lemma SeedIsValid(configured: bool)
    ensures Inv(Seed(configured), configured)
    ensures Seed(configured).queue == [0] && Seed(configured).nextId == 1
    ensures Seed(configured).pending == [] && Seed(configured).disposed == {}
    ensures Seed(configured).actionRuns == [Runs(configured)]
  {
  }

  // ---------------------------------------------------------------------------
  // Ticks

  /** The dequeue of a tick never fails: the enqueue right before it made the queue non-empty, whatever the state. */
  lemma {:induction false} TickNeverMissesHandler(s: State, configured: bool, actionThrows: bool)
    ensures Tick(s, configured, actionThrows).outcome != HandlerNotFound
  {
  }

  /** A raising callback aborts the tick: queue, current handler and every other part of the state are unchanged. */
  lemma TickBuildFailureKeepsState(s: State, actionThrows: bool)
    requires actionThrows
    ensures Tick(s, true, actionThrows) == TickResult(s, BuildFailed)
    ensures GetClient(Tick(s, true, actionThrows).after, true, false) == GetClient(s, true, false)
  {
  }

  /** From a one-handler queue `[h]` the tick passes through `[h, new]`, and the transient state still serves `h`. */
  lemma EnqueueBeforeDequeue(s: State, configured: bool, actionThrows: bool)
    requires |s.queue| == 1 && !(configured && actionThrows)
    ensures Enqueue(Build(s, configured, actionThrows)).queue == [s.queue[0], s.nextId]
    ensures GetClient(Enqueue(Build(s, configured, actionThrows)), false, false).client.handler == s.queue[0]
    ensures Tick(s, configured, actionThrows).after.queue == Enqueue(Build(s, configured, actionThrows)).queue[1..]
  {
  }

  /**
    A factory whose queue is empty (the object a raising constructor leaves
    subscribed to its timer) still ticks: each successful tick builds a
    handler, runs the callback on it, and at once retires that same handler,
    so the queue stays empty.
   */
  lemma EmptyQueueTickRetiresOwnHandler(s: State, configured: bool, actionThrows: bool)
    requires s.queue == [] && !(configured && actionThrows)
    ensures Tick(s, configured, actionThrows).outcome == Rotated(s.nextId, s.nextId)
    ensures Tick(s, configured, actionThrows).after.queue == []
    ensures Tick(s, configured, actionThrows).after.pending == s.pending + [s.nextId]
    ensures Tick(s, configured, actionThrows).after.actionRuns == s.actionRuns + [Runs(configured)]
  {
  }

  /**
    A tick from a valid state retires the previous head, makes the handler it
    built the only one in the queue, and starts the grace delay of the
    retired handler. The two handlers differ, so rotation is observable.
   */
  lemma TickRotates(s: State, configured: bool, actionThrows: bool)
    requires Inv(s, configured) && !(configured && actionThrows)
    ensures Tick(s, configured, actionThrows).outcome == Rotated(s.queue[0], s.nextId)
    ensures Tick(s, configured, actionThrows).after.queue == [s.nextId]
    ensures Tick(s, configured, actionThrows).after.pending == s.pending + [s.queue[0]]
    ensures Tick(s, configured, actionThrows).after.disposed == s.disposed
    ensures s.queue[0] != s.nextId
    ensures GetClient(Tick(s, configured, actionThrows).after, false, false).client.handler == s.nextId
  {
  }

  lemma TickPreservesInv(s: State, configured: bool, actionThrows: bool)
    requires Inv(s, configured)
    ensures Inv(Tick(s, configured, actionThrows).after, configured)
  {
  }

  // ---------------------------------------------------------------------------
  // Grace-period releases

  /**
    A release disposes only the oldest retired handler, exactly once (it
    leaves the pending list and was not disposed before), and never the
    current handler. Without a running delay nothing is disposed.
   */
  lemma ReleaseDisposesOnlyRetired(s: State, configured: bool)
    requires Inv(s, configured)
    ensures s.pending == [] ==> Release(s) == ReleaseResult(s, None)
    ensures s.pending != [] ==>
      && Release(s).released == Some(s.pending[0])
      && s.pending[0] !in s.disposed
      && s.pending[0] !in Release(s).after.pending
      && Release(s).after.disposed == s.disposed + {s.pending[0]}
      && s.pending[0] != s.queue[0]
    ensures Release(s).after.queue == s.queue
  {
  }

  lemma ReleasePreservesInv(s: State, configured: bool)
    requires Inv(s, configured)
    ensures Inv(Release(s).after, configured)
  {
  }

  // ---------------------------------------------------------------------------
  // Client requests

  /**
    Rotation is observable and safe for clients: after a successful tick from
    a valid state a client request is served by a different handler than
    before, and the handler served before is now waiting out its grace delay,
    not disposed.
   */
  lemma RotationChangesServedHandler(s: State, configured: bool, actionThrows: bool, clientConfigured: bool)
    requires Inv(s, configured) && !(configured && actionThrows)
    ensures GetClient(s, clientConfigured, false).Success?
    ensures GetClient(Tick(s, configured, actionThrows).after, clientConfigured, false).Success?
    ensures GetClient(Tick(s, configured, actionThrows).after, clientConfigured, false).client.handler
              != GetClient(s, clientConfigured, false).client.handler
    ensures GetClient(s, clientConfigured, false).client.handler in Tick(s, configured, actionThrows).after.pending
    ensures GetClient(s, clientConfigured, false).client.handler !in Tick(s, configured, actionThrows).after.disposed
  {
    TickRotates(s, configured, actionThrows);
    var t := Tick(s, configured, actionThrows).after;
    assert t.pending[|s.pending|] == s.queue[0];
  }

  /**
    The two variants serve the same handler from the same state: the static
    request succeeds exactly when the instance request finds a handler, both
    bind a non-owning client to it, and only the instance variant configures it.
   */
  lemma VariantsAgree(s: State, clientConfigured: bool)
    ensures StaticGetClient(s).Success? <==> GetClient(s, clientConfigured, false).Success?
    ensures StaticGetClient(s).Failure? ==> GetClient(s, clientConfigured, true).Failure?
    ensures StaticGetClient(s).Success? ==>
      && StaticGetClient(s).client == GetClient(s, clientConfigured, false).client.(actionRuns := 0)
      && !StaticGetClient(s).client.disposeHandler
  {
  }

  /**
    In a valid state the peek always finds a handler: a client request fails
    only when a supplied client callback raises, and otherwise gets the
    newest handler, which is not disposed; the static request always succeeds.
   */
  lemma ValidStateServesCurrent(s: State, configured: bool, clientConfigured: bool, clientActionThrows: bool)
    requires Inv(s, configured)
    ensures GetClient(s, clientConfigured, clientActionThrows).Success? <==> !(clientConfigured && clientActionThrows)
    ensures GetClient(s, clientConfigured, clientActionThrows).Failure? ==>
              GetClient(s, clientConfigured, clientActionThrows).error == ClientActionFailed
    ensures GetClient(s, clientConfigured, clientActionThrows).Success? ==>
              && GetClient(s, clientConfigured, clientActionThrows).client.handler + 1 == s.nextId
              && GetClient(s, clientConfigured, clientActionThrows).client.handler !in s.disposed
    ensures StaticGetClient(s).Success?
  {
  }

  // ---------------------------------------------------------------------------
  // Whole runs

  lemma {:induction false} RunPreservesInv(s: State, configured: bool, es: seq<Event>)
    requires Inv(s, configured)
    ensures Inv(Run(s, configured, es), configured)
    decreases |es|
  {
    if es != [] {
      match es[0] {
        case Elapsed(actionThrows) => TickPreservesInv(s, configured, actionThrows);
        case GraceOver => ReleasePreservesInv(s, configured);
      }
      RunPreservesInv(Step(s, configured, es[0]), configured, es[1..]);
    }
  }

  /**
    After construction and any sequence of ticks and releases, the queue
    holds exactly one handler, a client request never finds it empty (it
    fails only when the client callback raises), and the handler it serves
    has not been disposed.
   */
  lemma NoGap(configured: bool, clientConfigured: bool, clientActionThrows: bool, es: seq<Event>)
    ensures |Run(Seed(configured), configured, es).queue| == 1
    ensures GetClient(Run(Seed(configured), configured, es), clientConfigured, clientActionThrows).Failure? ==>
              GetClient(Run(Seed(configured), configured, es), clientConfigured, clientActionThrows).error == ClientActionFailed
    ensures GetClient(Run(Seed(configured), configured, es), clientConfigured, false).Success?
    ensures GetClient(Run(Seed(configured), configured, es), clientConfigured, false).client.handler
              !in Run(Seed(configured), configured, es).disposed
  {
    SeedIsValid(configured);
    RunPreservesInv(Seed(configured), configured, es);
  }

  /** Every handler a manager ever built, seed and tick handlers alike, had the handler callback applied exactly `Runs(configured)` times. */
  lemma HandlersConfiguredOnce(configured: bool, es: seq<Event>, h: HandlerId)
    requires h < Run(Seed(configured), configured, es).nextId
    ensures |Run(Seed(configured), configured, es).actionRuns| == Run(Seed(configured), configured, es).nextId
    ensures Run(Seed(configured), configured, es).actionRuns[h] == Runs(configured)
  {
    SeedIsValid(configured);
    RunPreservesInv(Seed(configured), configured, es);
  }

  /** Only retired handlers are disposed: across any run the handler being served is never among the disposed ones, and neither is any handler still in its grace delay. */
  lemma OnlyRetiredDisposed(configured: bool, es: seq<Event>, h: HandlerId)
    requires h in Run(Seed(configured), configured, es).disposed
    ensures h !in Run(Seed(configured), configured, es).queue
    ensures h !in Run(Seed(configured), configured, es).pending
    ensures h < Run(Seed(configured), configured, es).nextId
  {
    SeedIsValid(configured);
    RunPreservesInv(Seed(configured), configured, es);
  }

  /** The ids below `n`. */
  ghost function Below(n: nat): (r: set<HandlerId>)
    ensures forall h: nat :: h in r <==> h < n
    ensures |r| == n
  {
    if n == 0 then {} else Below(n - 1) + {n - 1}
  }

  /** The handlers in `xs`, as a set. */
  ghost function Elems(xs: seq<HandlerId>): (r: set<HandlerId>)
    ensures forall x :: x in r <==> x in xs
  {
    if xs == [] then {} else {xs[0]} + Elems(xs[1..])
  }

  /** A strictly increasing sequence has no repeated handler. */
  lemma {:induction false} IncreasingCard(xs: seq<HandlerId>)
    requires Increasing(xs)
    ensures |Elems(xs)| == |xs|
  {
    if xs != [] {
      assert xs[0] !in xs[1..];
      IncreasingCard(xs[1..]);
    }
  }

  /**
    In a valid state every handler built so far is exactly one of current,
    pending or disposed, so the three counts add up to the number built.
   */
  lemma InvAccounted(s: State, configured: bool)
    requires Inv(s, configured)
    ensures |s.pending| + |s.disposed| + 1 == s.nextId
  {
    var p := Elems(s.pending);
    var head := s.queue[0];
    assert Below(s.nextId) == p + s.disposed + {head};
    assert p * s.disposed == {};
    assert head !in p + s.disposed;
    IncreasingCard(s.pending);
  }

  /**
    Accounting over a run from a valid state: each successful tick builds
    exactly one handler, each grace expiry disposes at most one, and every
    handler built so far is the current one, pending or disposed, exactly one
    of the three.
   */
  lemma {:induction false} RunAccounting(s: State, configured: bool, es: seq<Event>)
    requires Inv(s, configured)
    ensures Run(s, configured, es).nextId == s.nextId + Builds(configured, es)
    ensures |Run(s, configured, es).disposed| <= |s.disposed| + GraceExpiries(es)
    ensures |Run(s, configured, es).pending| + |Run(s, configured, es).disposed| + 1 == Run(s, configured, es).nextId
    decreases |es|
  {
    if es != [] {
      var t := Step(s, configured, es[0]);
      match es[0] {
        case Elapsed(actionThrows) =>
          TickPreservesInv(s, configured, actionThrows);
          if !(configured && actionThrows) {
            TickRotates(s, configured, actionThrows);
          }
        case GraceOver =>
          ReleasePreservesInv(s, configured);
          if s.pending != [] {
            ReleaseDisposesOnlyRetired(s, configured);
          }
      }
      RunAccounting(t, configured, es[1..]);
    } else {
      InvAccounted(s, configured);
    }
  }

  /** From construction: the number of handlers ever built is one more than the successful ticks, and at most one handler is disposed per grace expiry. */
  lemma HandlersBuiltPerTick(configured: bool, es: seq<Event>)
    ensures Run(Seed(configured), configured, es).nextId == 1 + Builds(configured, es)
    ensures |Run(Seed(configured), configured, es).disposed| <= GraceExpiries(es)
    ensures |Run(Seed(configured), configured, es).pending| + |Run(Seed(configured), configured, es).disposed|
              == Builds(configured, es)
  {
    SeedIsValid(configured);
    RunAccounting(Seed(configured), configured, es);
  }
}
