/**
 * The bookkeeping of a stream subscription, stated on values: where it
 * starts, how big a page it pulls, how each pushed message advances it,
 * how failures are sorted into drop reasons, and the one-shot "dropped"
 * notification. Threads, timers and wake-up signals are not part of it:
 * one iteration of the pull-and-push loop is one step here, and the page
 * it pulls is read from a store value. The class in stream_subscription.dfy
 * performs the same steps in place.
 */
module Subscriptions {
  import opened Wrappers
  import opened Streams

  /** The page size a new subscription reads with. */
  const DefaultPageSize: int := 10

  /** Why a subscription was dropped, as reported to the dropped callback. */
  datatype DropReason = Disposed | StreamStoreError | SubscriberError

  /**
   * What a read of the store can throw. InvalidOperation is what asking for
   * the first message of an empty page throws.
   */
  datatype ReadException = ObjectDisposed | OperationCanceled | InvalidOperation | OtherReadError

  /**
   * The observable state of a subscription: its page size, the next
   * version to read, the last version it reports, whether disposal was
   * requested, whether the dropped callback was raised, the reasons it was
   * raised with, the messages handed to the handler, how often the
   * caught-up callback ran, whether the start point was resolved, and
   * whether the pull-and-push loop is still going.
   */
  datatype Sub = Sub(
    pageSize: int,
    nextVersion: int,
    lastVersion: Option<int>,
    disposed: bool,
    notificationRaised: bool,
    drops: seq<DropReason>,
    delivered: seq<StreamMessage>,
    caughtUp: nat,
    started: bool,
    running: bool)

  /** A subscription just constructed, before its loop has resolved where to start. */
  const Initial: Sub := Sub(DefaultPageSize, 0, None, false, false, [], [], 0, false, false)

  /** The MaxCountPerRead setter: a value of 0 or less is stored as 1. */
  function ClampPageSize(value: int): (r: int)
    ensures r >= 1
    ensures value >= 1 ==> r == value
    ensures value < 1 ==> r == 1
  {
    if value <= 0 then 1 else value
  }

  function SetMaxCountPerRead(s: Sub, value: int): Sub {
    s.(pageSize := ClampPageSize(value))
  }

  /** A read failure's drop reason: disposal and cancellation mean Disposed, anything else a store error. */
  function ReadFailureReason(e: ReadException): (r: DropReason)
    ensures r == Disposed <==> e == ObjectDisposed || e == OperationCanceled
    ensures r != SubscriberError
  {
    match e
    case ObjectDisposed => Disposed
    case OperationCanceled => Disposed
    case _ => StreamStoreError
  }

  /** NotifySubscriptionDropped: only the first report reaches the callback. */
  function NotifyDropped(s: Sub, reason: DropReason): Sub {
    if s.notificationRaised then s
    else s.(notificationRaised := true, drops := s.drops + [reason])
  }

  /** Dispose: the first call requests cancellation and reports Disposed; later calls do nothing. */
  function Dispose(s: Sub): Sub {
    if s.disposed then s
    else NotifyDropped(s.(disposed := true), Disposed)
  }

  /**
   * Initialize: start after the newest message. `init` is the page read
   * backwards from the end with at most one message, or what that read
   * threw. Reading resumes after the newest message and LastVersion is
   * set to that same next version. A failure reports its drop reason; an
   * empty page fails as asking for its first message does.
   */
  function Initialize(s: Sub, init: Result<seq<StreamMessage>, ReadException>): Sub {
    match init
    case Failure(e) => NotifyDropped(s, ReadFailureReason(e))
    case Success(page) =>
      if page == [] then NotifyDropped(s, ReadFailureReason(InvalidOperation))
      else
        var next := page[0].streamVersion + 1;
        s.(nextVersion := next, lastVersion := Some(next))
  }

  /** Whether Initialize completes rather than throwing. */
  predicate Initialized(init: Result<seq<StreamMessage>, ReadException>) {
    init.Success? && init.value != []
  }

  /** The start point is resolved: the loop begins. */
  function Begin(s: Sub): Sub {
    s.(started := true, running := true)
  }

  /**
   * The start of the pull-and-push loop. With no version to continue
   * after, reading starts at 0; after an explicit version V, at V + 1;
   * from the end, Initialize decides, and if it throws the loop never
   * runs.
   */
  function Start(s: Sub, continueAfterVersion: Option<int>, init: Result<seq<StreamMessage>, ReadException>): Sub {
    match continueAfterVersion
    case None => Begin(s.(nextVersion := 0))
    case Some(v) =>
      if v == EndVersion then
        if Initialized(init) then Begin(Initialize(s, init)) else Initialize(s, init)
      else Begin(s.(nextVersion := v + 1))
  }

  /** Push: advance past the message, report it as the last version, hand it to the handler. */
  function Push(s: Sub, m: StreamMessage): Sub {
    s.(nextVersion := m.streamVersion + 1, lastVersion := Some(m.streamVersion), delivered := s.delivered + [m])
  }

  /** Push each message of a page, in page order. */
  function PushAll(s: Sub, page: seq<StreamMessage>): Sub
    decreases |page|
  {
    if page == [] then s
    else Push(PushAll(s, page[..|page| - 1]), page[|page| - 1])
  }

  /**
   * One iteration of the pull-and-push loop. The loop stops once disposal
   * was requested. `pull` is the page read forward from the next version
   * with at most the page size, or what that read threw; `handlerFailsAt`
   * is the index of the message whose handler throws, if any. A failure
   * reports its drop reason and ends the loop; a page handled without
   * failure is followed by the caught-up callback.
   */
  function Iterate(s: Sub, pull: Result<seq<StreamMessage>, ReadException>, handlerFailsAt: Option<nat>): Sub {
    if !s.running || s.disposed then s.(running := false)
    else
      match pull
      case Failure(e) => NotifyDropped(s, ReadFailureReason(e)).(running := false)
      case Success(page) =>
        if handlerFailsAt.Some? && handlerFailsAt.value < |page| then
          NotifyDropped(PushAll(s, page[..handlerFailsAt.value + 1]), SubscriberError).(running := false)
        else
          PushAll(s, page).(caughtUp := s.caughtUp + 1)
  }

  /** The page an iteration pulls from a store (when the read does not throw). */
  function PullPage(st: Store, sid: StreamId, s: Sub): seq<StreamMessage>
    requires s.pageSize >= 1
  {
    ReadStreamForwards(st, sid, s.nextVersion, s.pageSize).messages
  }

  /** The page the start reads from a store from the end (when the read does not throw). */
  function InitPage(st: Store, sid: StreamId): seq<StreamMessage> {
    ReadStreamBackwards(st, sid, EndVersion, 1).messages
  }

  /**
   * The latch: the page size is at least 1, and the dropped callback has
   * been raised at most once, exactly when the flag says so.
   */
  predicate Latched(s: Sub) {
    && s.pageSize >= 1
    && |s.drops| <= 1
    && (s.notificationRaised <==> s.drops != [])
  }

  /**
   * Delivery order: the messages handed to the handler have strictly
   * increasing versions, all below the next version to read.
   */
  predicate InOrder(s: Sub) {
    && (forall i, j | 0 <= i < j < |s.delivered| :: s.delivered[i].streamVersion < s.delivered[j].streamVersion)
    && (forall i | 0 <= i < |s.delivered| :: s.delivered[i].streamVersion < s.nextVersion)
  }
}
