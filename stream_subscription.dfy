/**
 * A subscription to one stream of an in-memory store, as an object whose
 * fields the start, Dispose, Pull and Push steps update in place. Each
 * method is proved to do what the functions of module Subscriptions say,
 * so the laws of module SubscriptionLaws hold of its successive states.
 * What the store reads and the handler throw is given by parameters: the
 * exception a read throws, if any, and the index of the message whose
 * handler throws, if any.
 */
module StreamSubscriptions {
  import opened Wrappers
  import opened Streams
  import opened Subscriptions
  import opened SubscriptionLaws
  import opened InMemoryStreamStore

  /** The read result a step sees: what the read threw, or the page it returned. */
  function ReadOutcome(failure: Option<ReadException>, page: seq<StreamMessage>): Result<seq<StreamMessage>, ReadException> {
    if failure.Some? then Failure(failure.value) else Success(page)
  }

  class StreamSubscription {
    const streamId: StreamId
    const continueAfterVersion: Option<int>
    var pageSize: int
    var nextVersion: int
    var lastVersion: Option<int>
    var disposed: bool
    var notificationRaised: bool
    var drops: seq<DropReason>
    var delivered: seq<StreamMessage>
    var caughtUp: nat
    var started: bool
    var running: bool

    /** The subscription's state as a value, for the functions of module Subscriptions. */
    function State(): Sub
      reads this
    {
      Sub(pageSize, nextVersion, lastVersion, disposed, notificationRaised, drops, delivered, caughtUp, started, running)
    }

    ghost predicate Valid()
      reads this
    {
      Latched(State()) && InOrder(State())
    }

    /**
     * Construct the subscription and resolve where its loop starts,
     * reading the newest message of `store` when it continues from the end
     * (`initFailure`: what that read throws, if it does).
     */
    constructor(streamId: StreamId, continueAfterVersion: Option<int>, store: StreamStore,
                initFailure: Option<ReadException>)
      ensures this.streamId == streamId && this.continueAfterVersion == continueAfterVersion
      ensures State() == Start(Initial, continueAfterVersion,
                               ReadOutcome(initFailure, InitPage(store.State(), streamId)))
      ensures Valid()
    {
      this.streamId := streamId;
      this.continueAfterVersion := continueAfterVersion;
      pageSize := DefaultPageSize;
      nextVersion := 0;
      lastVersion := None;
      disposed := false;
      notificationRaised := false;
      drops := [];
      delivered := [];
      caughtUp := 0;
      started := false;
      running := false;
      new;
      StartKeepsOrder(Initial, continueAfterVersion, ReadOutcome(initFailure, InitPage(store.State(), streamId)));
      if continueAfterVersion.None? {
        nextVersion := 0;
      } else if continueAfterVersion.value == EndVersion {
        var ok := Initialize(store, initFailure);
        if !ok {
          return;
        }
      } else {
        nextVersion := continueAfterVersion.value + 1;
      }
      started := true;
      running := true;
    }

    /** The MaxCountPerRead setter. */
    method SetMaxCountPerRead(value: int)
      requires Valid()
      modifies this
      ensures Valid()
      ensures State() == Subscriptions.SetMaxCountPerRead(old(State()), value)
    {
      pageSize := if value <= 0 then 1 else value;
    }

    /** Report a drop; only the first report reaches the dropped callback. */
    method NotifySubscriptionDropped(reason: DropReason)
      modifies this
      ensures State() == NotifyDropped(old(State()), reason)
    {
      if notificationRaised {
        return;
      }
      notificationRaised := true;
      drops := drops + [reason];
    }

    /** Request disposal once and report it. */
    method Dispose()
      requires Valid()
      modifies this
      ensures Valid()
      ensures State() == Subscriptions.Dispose(old(State()))
    {
      StepsKeepLatch(State(), Disposed, 0, None, Failure(ObjectDisposed), Failure(ObjectDisposed), None);
      if disposed {
        return;
      }
      disposed := true;
      NotifySubscriptionDropped(Disposed);
    }

    /** Read the newest message and continue after it; false when the read or the empty page throws. */
    method Initialize(store: StreamStore, failure: Option<ReadException>) returns (ok: bool)
      modifies this
      ensures ok == Initialized(ReadOutcome(failure, InitPage(store.State(), streamId)))
      ensures State() == Subscriptions.Initialize(old(State()), ReadOutcome(failure, InitPage(store.State(), streamId)))
    {
      if failure.Some? {
        NotifySubscriptionDropped(ReadFailureReason(failure.value));
        return false;
      }
      var page := store.ReadStreamBackwards(streamId, EndVersion, 1);
      if page.messages == [] {
        NotifySubscriptionDropped(ReadFailureReason(InvalidOperation));
        return false;
      }
      nextVersion := page.messages[0].streamVersion + 1;
      lastVersion := Some(nextVersion);
      return true;
    }

    /** Read the next page; on a failure report its drop reason and return None. */
    method Pull(store: StreamStore, failure: Option<ReadException>) returns (page: Option<seq<StreamMessage>>)
      requires pageSize >= 1
      modifies this
      ensures failure.None? ==> page == Some(PullPage(store.State(), streamId, old(State()))) && State() == old(State())
      ensures failure.Some? ==> page.None? && State() == NotifyDropped(old(State()), ReadFailureReason(failure.value))
    {
      if failure.Some? {
        NotifySubscriptionDropped(ReadFailureReason(failure.value));
        return None;
      }
      var read := store.ReadStreamForwards(streamId, nextVersion, pageSize);
      return Some(read.messages);
    }

    /** Advance past the message and hand it to the handler; false when the handler throws. */
    method Push(m: StreamMessage, handlerThrows: bool) returns (ok: bool)
      modifies this
      ensures ok == !handlerThrows
      ensures State() == if handlerThrows then NotifyDropped(Subscriptions.Push(old(State()), m), SubscriberError)
                         else Subscriptions.Push(old(State()), m)
    {
      nextVersion := m.streamVersion + 1;
      lastVersion := Some(m.streamVersion);
      delivered := delivered + [m];
      if handlerThrows {
        NotifySubscriptionDropped(SubscriberError);
        return false;
      }
      return true;
    }

    /**
     * One iteration of the pull-and-push loop against `store`: pull a page
     * (`failure`: what the read throws, if it does), push its messages in
     * order (`handlerFailsAt`: the index whose handler throws, if any),
     * then signal that the subscription has caught up.
     */
    method Iterate(store: StreamStore, failure: Option<ReadException>, handlerFailsAt: Option<nat>)
      requires Valid() && store.Valid()
      modifies this
      ensures Valid()
      ensures State() == Subscriptions.Iterate(old(State()),
                           ReadOutcome(failure, PullPage(store.State(), streamId, old(State()))), handlerFailsAt)
    {
      ghost var s0 := State();
      ghost var st := store.State();
      ghost var pull := ReadOutcome(failure, PullPage(st, streamId, s0));
      ghost var target := Subscriptions.Iterate(s0, pull, handlerFailsAt);
      assert Latched(target) && InOrder(target) by {
        StepsKeepLatch(s0, Disposed, 0, None, pull, pull, handlerFailsAt);
        IterateKeepsOrder(st, streamId, s0, failure, handlerFailsAt);
      }
      if !running || disposed {
        running := false;
        return;
      }
      var page := Pull(store, failure);
      if page.None? {
        running := false;
        return;
      }
      assert pull == Success(page.value);
      var completed := PushPage(page.value, handlerFailsAt);
      if !completed {
        running := false;
        return;
      }
      PushAllKeepsFields(s0, page.value);
      caughtUp := caughtUp + 1;
      assert State() == target;
    }

    /**
     * Push each message of the page in order; stop at the message whose
     * handler throws (`handlerFailsAt`), returning false.
     */
    method PushPage(msgs: seq<StreamMessage>, handlerFailsAt: Option<nat>) returns (completed: bool)
      modifies this
      ensures completed == (handlerFailsAt.None? || handlerFailsAt.value >= |msgs|)
      ensures completed ==> State() == PushAll(old(State()), msgs)
      ensures !completed ==>
        State() == NotifyDropped(PushAll(old(State()), msgs[..handlerFailsAt.value + 1]), SubscriberError)
    {
      ghost var s0 := State();
      var i := 0;
      while i < |msgs|
        invariant 0 <= i <= |msgs|
        invariant handlerFailsAt.None? || handlerFailsAt.value >= i
        invariant State() == PushAll(s0, msgs[..i])
      {
        assert msgs[..i + 1][..i] == msgs[..i];
        assert PushAll(s0, msgs[..i + 1]) == Subscriptions.Push(PushAll(s0, msgs[..i]), msgs[i]);
        var ok := Push(msgs[i], handlerFailsAt == Some(i));
        if !ok {
          return false;
        }
        i := i + 1;
      }
      assert msgs[..|msgs|] == msgs;
      return true;
    }
  }
}
