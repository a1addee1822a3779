/**
 * What the subscription steps of module Subscriptions guarantee: the
 * dropped callback fires at most once, Dispose is idempotent, the start
 * point is resolved as documented, pushing advances the next version past
 * each message, and messages reach the handler in version order, each at
 * most once, when pages come from a well-formed store.
 */
module SubscriptionLaws {
  import opened Wrappers
  import opened Streams
  import opened StreamStoreLaws
  import opened Subscriptions

  // ---------------------------------------------------------------------
  // The one-shot latch and Dispose
  // ---------------------------------------------------------------------

  /** Once raised, further drop reports change nothing; the first one is recorded. */
  lemma NotifyDroppedOnce(s: Sub, first: DropReason, later: DropReason)
    requires Latched(s) && !s.notificationRaised
    ensures NotifyDropped(s, first).drops == [first]
    ensures NotifyDropped(NotifyDropped(s, first), later) == NotifyDropped(s, first)
  {
  }

  /** Every step keeps the latch: the dropped callback is raised at most once, ever. */
  lemma StepsKeepLatch(s: Sub, reason: DropReason, value: int, c: Option<int>,
                       init: Result<seq<StreamMessage>, ReadException>,
                       pull: Result<seq<StreamMessage>, ReadException>, failsAt: Option<nat>)
    requires Latched(s)
    ensures Latched(NotifyDropped(s, reason))
    ensures Latched(Dispose(s))
    ensures Latched(SetMaxCountPerRead(s, value))
    ensures Latched(Start(s, c, init))
    ensures Latched(Iterate(s, pull, failsAt))
  {
    if pull.Success? {
      PushAllKeepsFields(s, pull.value);
      if failsAt.Some? && failsAt.value < |pull.value| {
        PushAllKeepsFields(s, pull.value[..failsAt.value + 1]);
      }
    }
  }

  /**
   * Dispose is idempotent: a second call changes nothing. The first call
   * requests disposal and reports Disposed unless a drop was already
   * reported.
   */
  lemma DisposeIsIdempotent(s: Sub)
    ensures Dispose(Dispose(s)) == Dispose(s)
    ensures Dispose(s).disposed
    ensures !s.disposed && !s.notificationRaised ==> Dispose(s).drops == s.drops + [Disposed]
    ensures s.disposed || s.notificationRaised ==> Dispose(s).drops == s.drops
  {
  }

  /** After Dispose, the loop stops at its next iteration without reading or pushing. */
  lemma DisposedLoopStops(s: Sub, pull: Result<seq<StreamMessage>, ReadException>, failsAt: Option<nat>)
    ensures Iterate(Dispose(s), pull, failsAt) == Dispose(s).(running := false)
  {
  }

  // ---------------------------------------------------------------------
  // Start resolution
  // ---------------------------------------------------------------------

  /**
   * With no version to continue after, reading starts at 0; after an
   * explicit version V other than the end, at V + 1. Neither reads the
   * store nor reports a drop.
   */
  lemma StartFromVersion(s: Sub, c: Option<int>, init: Result<seq<StreamMessage>, ReadException>)
    requires c.None? || c.value != EndVersion
    ensures var s' := Start(s, c, init);
      && s'.nextVersion == (if c.None? then 0 else c.value + 1)
      && s'.started && s'.running
      && s'.drops == s.drops && s'.lastVersion == s.lastVersion
  {
  }

  /**
   * The newest visible message of a well-formed, non-empty stream is what a
   * backwards read of one message from the end returns.
   */
  lemma InitPageIsNewest(st: Store, sid: StreamId)
    requires ValidStore(st) && sid in st.streams && st.streams[sid].messages != []
    ensures var msgs := st.streams[sid].messages;
      InitPage(st, sid) == [msgs[|msgs| - 1]]
  {
    var s := st.streams[sid];
    assert WellFormed(sid, s);
  }

  /**
   * From the end of a stream with visible messages, reading starts just
   * after its newest message: every visible version is below the next
   * version, and the next version is the newest one plus 1.
   */
  lemma StartFromEndOfStream(st: Store, sid: StreamId, s: Sub)
    requires ValidStore(st) && sid in st.streams && st.streams[sid].messages != []
    ensures var msgs := st.streams[sid].messages;
      var s' := Start(s, Some(EndVersion), Success(InitPage(st, sid)));
      && s'.started && s'.running
      && s'.nextVersion == msgs[|msgs| - 1].streamVersion + 1
      && (forall i | 0 <= i < |msgs| :: msgs[i].streamVersion < s'.nextVersion)
  {
    InitPageIsNewest(st, sid);
    assert WellFormed(sid, st.streams[sid]);
  }

  /**
   * From the end of a stream that is missing or shows no messages, asking
   * for the newest message fails, and the subscription is dropped with
   * StreamStoreError before its loop runs.
   */
  lemma StartFromEndOfEmptyStream(st: Store, sid: StreamId, s: Sub)
    requires !s.running
    requires sid !in st.streams || st.streams[sid].messages == []
    ensures var s' := Start(s, Some(EndVersion), Success(InitPage(st, sid)));
      && !s'.running
      && s' == NotifyDropped(s, StreamStoreError)
  {
    if sid in st.streams {
      assert AtOrBeforeNewestFirst(st.streams[sid].messages, st.streams[sid].version) == [];
    }
  }

  /** A failing start read is sorted into its drop reason, and the loop never runs. */
  lemma StartReadFailure(s: Sub, e: ReadException)
    requires !s.notificationRaised && !s.running && !s.started
    ensures var s' := Start(s, Some(EndVersion), Failure(e));
      && !s'.running && !s'.started
      && s'.drops == s.drops + [if e == ObjectDisposed || e == OperationCanceled then Disposed else StreamStoreError]
  {
  }

  // ---------------------------------------------------------------------
  // Pushing a page
  // ---------------------------------------------------------------------

  /**
   * Pushing a page hands its messages to the handler in page order and
   * changes nothing but the next and last versions, which end just after,
   * and at, the page's last message.
   */
  lemma {:induction false} PushAllKeepsFields(s: Sub, page: seq<StreamMessage>)
    ensures var s' := PushAll(s, page);
      && s'.delivered == s.delivered + page
      && s' == s.(nextVersion := s'.nextVersion, lastVersion := s'.lastVersion, delivered := s'.delivered)
      && (page == [] ==> s' == s)
      && (page != [] ==>
            s'.nextVersion == page[|page| - 1].streamVersion + 1 &&
            s'.lastVersion == Some(page[|page| - 1].streamVersion))
    decreases |page|
  {
    if page != [] {
      PushAllKeepsFields(s, page[..|page| - 1]);
      assert s.delivered + page[..|page| - 1] + [page[|page| - 1]] == s.delivered + page;
    }
  }

  /** A page whose versions strictly increase, all at or after `v`. */
  predicate Ascending(page: seq<StreamMessage>, v: int) {
    && (forall i, j | 0 <= i < j < |page| :: page[i].streamVersion < page[j].streamVersion)
    && (forall i | 0 <= i < |page| :: page[i].streamVersion >= v)
  }

  /** Pushing an ascending page from the next version keeps delivery in order. */
  lemma PushAllKeepsOrder(s: Sub, page: seq<StreamMessage>)
    requires InOrder(s) && Ascending(page, s.nextVersion)
    ensures InOrder(PushAll(s, page))
  {
    PushAllKeepsFields(s, page);
    var s' := PushAll(s, page);
    if page != [] {
      var n := |s.delivered|;
      forall i, j | 0 <= i < j < |s'.delivered|
        ensures s'.delivered[i].streamVersion < s'.delivered[j].streamVersion
      {
        if i < n && j >= n {
          assert s'.delivered[j] == page[j - n];
        } else if i >= n {
          assert s'.delivered[i] == page[i - n] && s'.delivered[j] == page[j - n];
        }
      }
      forall i | 0 <= i < |s'.delivered|
        ensures s'.delivered[i].streamVersion < s'.nextVersion
      {
        if i >= n {
          assert s'.delivered[i] == page[i - n];
        }
      }
    }
  }

  // ---------------------------------------------------------------------
  // Pages read from the store
  // ---------------------------------------------------------------------

  /** Reading forward keeps the stream's order. */
  lemma {:induction false} AtOrAfterAscending(msgs: seq<StreamMessage>, v: int)
    requires forall i, j | 0 <= i < j < |msgs| :: msgs[i].streamVersion < msgs[j].streamVersion
    ensures Ascending(AtOrAfter(msgs, v), v)
  {
    if msgs != [] {
      AtOrAfterAscending(msgs[1..], v);
      AtOrAfterMembers(msgs[1..], v);
      var rest := AtOrAfter(msgs[1..], v);
      forall m | m in rest ensures msgs[0].streamVersion < m.streamVersion {
        var q :| 0 <= q < |msgs[1..]| && msgs[1..][q] == m;
        assert msgs[q + 1] == m;
      }
      if msgs[0].streamVersion >= v {
        ConsAscending(msgs[0], rest, v);
      }
    }
  }

  /** A message older than every message of an ascending page extends it at the front. */
  lemma ConsAscending(x: StreamMessage, rest: seq<StreamMessage>, v: int)
    requires Ascending(rest, v) && x.streamVersion >= v
    requires forall m | m in rest :: x.streamVersion < m.streamVersion
    ensures Ascending([x] + rest, v)
  {
    var r := [x] + rest;
    forall i, j | 0 <= i < j < |r| ensures r[i].streamVersion < r[j].streamVersion {
      if i == 0 {
        assert r[j] in rest;
      } else {
        assert r[i] == rest[i - 1] && r[j] == rest[j - 1];
      }
    }
  }

  /** Every leading part of an ascending page is ascending. */
  lemma AscendingPrefix(page: seq<StreamMessage>, v: int, n: nat)
    requires Ascending(page, v) && n <= |page|
    ensures Ascending(page[..n], v)
  {
  }

  /** A page pulled from a well-formed store is ascending from the next version. */
  lemma PullPageAscending(st: Store, sid: StreamId, s: Sub)
    requires ValidStore(st) && s.pageSize >= 1
    ensures Ascending(PullPage(st, sid, s), s.nextVersion)
    ensures |PullPage(st, sid, s)| <= s.pageSize
  {
    if sid in st.streams {
      var msgs := st.streams[sid].messages;
      assert WellFormed(sid, st.streams[sid]);
      AtOrAfterAscending(msgs, s.nextVersion);
      var all := AtOrAfter(msgs, s.nextVersion);
      AscendingPrefix(all, s.nextVersion, Min(s.pageSize, |all|));
    }
  }

  /**
   * An iteration on a store read that succeeds and a handler that never
   * throws hands the handler exactly the pulled page (at most the page
   * size, from the next version on, in order), then runs the caught-up
   * callback once more: the callback runs after every page, not only the
   * first.
   */
  lemma IterateDeliversPage(st: Store, sid: StreamId, s: Sub, failsAt: Option<nat>)
    requires ValidStore(st) && Latched(s) && s.running && !s.disposed
    requires failsAt.None? || failsAt.value >= |PullPage(st, sid, s)|
    ensures var page := PullPage(st, sid, s);
      var s' := Iterate(s, Success(page), failsAt);
      && |page| <= s.pageSize
      && s'.delivered == s.delivered + page
      && s'.caughtUp == s.caughtUp + 1
      && s'.running && s'.drops == s.drops
      && (page != [] ==> s'.nextVersion == page[|page| - 1].streamVersion + 1)
      && (page == [] ==> s'.nextVersion == s.nextVersion)
  {
    PullPageAscending(st, sid, s);
    PushAllKeepsFields(s, PullPage(st, sid, s));
  }

  /**
   * A failing read in the loop is sorted into its drop reason and ends the
   * loop without pushing anything; disposal is not requested by it.
   */
  lemma IterateReadFailure(s: Sub, e: ReadException, failsAt: Option<nat>)
    requires s.running && !s.disposed && !s.notificationRaised
    ensures var s' := Iterate(s, Failure(e), failsAt);
      && !s'.running && !s'.disposed
      && s'.delivered == s.delivered
      && s'.drops == s.drops + [ReadFailureReason(e)]
  {
  }

  /**
   * A handler that throws on the i-th message of the page: the messages up
   * to and including it were handed over, the next version is past it, the
   * subscription is dropped with SubscriberError, the loop ends and the
   * caught-up callback does not run.
   */
  lemma IterateHandlerFailure(s: Sub, page: seq<StreamMessage>, i: nat)
    requires s.running && !s.disposed && !s.notificationRaised && i < |page|
    ensures var s' := Iterate(s, Success(page), Some(i));
      && !s'.running
      && s'.delivered == s.delivered + page[..i + 1]
      && s'.nextVersion == page[i].streamVersion + 1
      && s'.lastVersion == Some(page[i].streamVersion)
      && s'.drops == s.drops + [SubscriberError]
      && s'.caughtUp == s.caughtUp
  {
    PushAllKeepsFields(s, page[..i + 1]);
    assert page[..i + 1][i] == page[i];
  }

  /**
   * No message reaches the handler twice, and they arrive in version
   * order: every iteration that pulls from a well-formed store keeps
   * delivery in order, whatever the read or the handler does.
   */
  lemma IterateKeepsOrder(st: Store, sid: StreamId, s: Sub, failure: Option<ReadException>, failsAt: Option<nat>)
    requires ValidStore(st) && Latched(s) && InOrder(s)
    ensures InOrder(Iterate(s, if failure.Some? then Failure(failure.value) else Success(PullPage(st, sid, s)), failsAt))
  {
    if s.running && !s.disposed && failure.None? {
      var page := PullPage(st, sid, s);
      PullPageAscending(st, sid, s);
      if failsAt.Some? && failsAt.value < |page| {
        AscendingPrefix(page, s.nextVersion, failsAt.value + 1);
        PushAllKeepsOrder(s, page[..failsAt.value + 1]);
        PushAllKeepsFields(s, page[..failsAt.value + 1]);
      } else {
        PushAllKeepsOrder(s, page);
        PushAllKeepsFields(s, page);
      }
    }
  }

  /**
   * Resolving the start keeps delivery in order: nothing has been handed
   * over yet when the loop starts.
   */
  lemma StartKeepsOrder(s: Sub, c: Option<int>, init: Result<seq<StreamMessage>, ReadException>)
    requires s.delivered == []
    ensures InOrder(Start(s, c, init))
  {
  }
}
