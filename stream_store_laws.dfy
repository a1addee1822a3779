/**
 * What the append/delete/read protocol of module Streams guarantees: the
 * store invariant is kept, replays are idempotent, conflicts are refused,
 * positions grow, and deletion hides exactly one message without
 * renumbering and leaves a tombstone.
 */
module StreamStoreLaws {
  import opened Wrappers
  import opened NewStreamEvents
  import opened Streams

  // ---------------------------------------------------------------------
  // The invariant
  // ---------------------------------------------------------------------

  /** Writing a fresh batch at the tail keeps a stream well formed. */
  lemma AppendedWellFormed(s: Stream, sid: StreamId, batch: seq<NewMessage>, head: int)
    requires WellFormed(sid, s) && s.position <= head && -1 <= head
    requires Fresh(s.messages, batch)
    ensures WellFormed(sid, Appended(s, sid, batch, head))
    ensures Appended(s, sid, batch, head).position <= head + |batch|
  {
    var s' := Appended(s, sid, batch, head);
    var n := |s.messages|;
    var c := Committed(sid, batch, s.version + 1, head + 1);
    assert s'.messages == s.messages + c;
    forall i, j | 0 <= i < j < |s'.messages|
      ensures s'.messages[i].streamVersion < s'.messages[j].streamVersion
      ensures s'.messages[i].position < s'.messages[j].position
      ensures s'.messages[i].messageId != s'.messages[j].messageId
    {
      if j >= n && i < n {
        assert s'.messages[j] == c[j - n];
        assert s'.messages[i] == s.messages[i];
      }
    }
  }

  /** Every append keeps the store invariant. */
  lemma ApplyPreservesValid(st: Store, sid: StreamId, e: ExpectedVersion, batch: seq<NewMessage>)
    requires ValidStore(st)
    ensures ValidStore(Apply(st, sid, e, batch).store)
  {
    var s := Lookup(st, sid).GetOr(Untouched);
    if PlanAppend(Lookup(st, sid), e, batch) == Write {
      assert Fresh(s.messages, batch);
      AppendedWellFormed(s, sid, batch, st.head);
    }
  }

  /** Removing one message keeps a stream well formed. */
  lemma RemovedWellFormed(sid: StreamId, s: Stream, i: nat)
    requires WellFormed(sid, s) && i < |s.messages|
    ensures WellFormed(sid, s.(messages := s.messages[..i] + s.messages[i + 1..]))
  {
    var m := s.messages[..i] + s.messages[i + 1..];
    assert forall k | 0 <= k < |m| :: m[k] == s.messages[if k < i then k else k + 1];
  }

  /** Hiding one message keeps the store invariant. */
  lemma WithoutMessageValid(st: Store, sid: StreamId, i: nat)
    requires ValidStore(st) && sid in st.streams && i < |st.streams[sid].messages|
    ensures ValidStore(WithoutMessage(st, sid, i))
  {
    RemovedWellFormed(sid, st.streams[sid], i);
  }

  /** Every deletion keeps the store invariant. */
  lemma DeletePreservesValid(st: Store, sid: StreamId, messageId: Guid, tombstoneId: Guid)
    requires ValidStore(st)
    ensures ValidStore(DeleteMessage(st, sid, messageId, tombstoneId))
  {
    if sid in st.streams {
      var s := st.streams[sid];
      match IndexOfId(s.messages, messageId)
      case None =>
      case Some(i) =>
        WithoutMessageValid(st, sid, i);
        ApplyPreservesValid(WithoutMessage(st, sid, i), DeletedStreamId, Any, [Tombstone(tombstoneId, sid, messageId)]);
    }
  }

  // ---------------------------------------------------------------------
  // Lookups on a well-formed stream
  // ---------------------------------------------------------------------

  /** In a well-formed stream the version lookup finds the one message with that version. */
  lemma IndexOfVersionFinds(sid: StreamId, s: Stream, i: nat)
    requires WellFormed(sid, s) && i < |s.messages|
    ensures IndexOfVersion(s.messages, s.messages[i].streamVersion) == Some(i)
  {
    var r := IndexOfVersion(s.messages, s.messages[i].streamVersion);
    assert r.Some?;
  }

  /** In a well-formed stream the id lookup finds the one message with that id. */
  lemma IndexOfIdFinds(sid: StreamId, s: Stream, i: nat)
    requires WellFormed(sid, s) && i < |s.messages|
    ensures IndexOfId(s.messages, s.messages[i].messageId) == Some(i)
  {
    var r := IndexOfId(s.messages, s.messages[i].messageId);
    assert r.Some?;
  }

  /** The message with version `v` and id `id` is visible in the stream. */
  ghost predicate CommittedAt(msgs: seq<StreamMessage>, v: int, id: Guid) {
    exists i | 0 <= i < |msgs| :: msgs[i].streamVersion == v && msgs[i].messageId == id
  }

  /**
   * The replay test means what it says: on a well-formed stream a batch
   * matches from version `start` exactly when, for every k, the message
   * committed at version start + k is visible and has the batch's k-th id.
   */
  lemma MatchesFromMeansCommittedAt(sid: StreamId, s: Stream, start: int, batch: seq<NewMessage>)
    requires WellFormed(sid, s)
    ensures MatchesFrom(s.messages, start, batch) <==>
      forall k | 0 <= k < |batch| :: CommittedAt(s.messages, start + k, batch[k].messageId)
  {
    if MatchesFrom(s.messages, start, batch) {
      MatchesImpliesCommitted(s.messages, start, batch);
    }
    if forall k | 0 <= k < |batch| :: CommittedAt(s.messages, start + k, batch[k].messageId) {
      CommittedImpliesMatches(sid, s, start, batch);
    }
  }

  lemma MatchesImpliesCommitted(msgs: seq<StreamMessage>, start: int, batch: seq<NewMessage>)
    requires MatchesFrom(msgs, start, batch)
    ensures forall k | 0 <= k < |batch| :: CommittedAt(msgs, start + k, batch[k].messageId)
  {
    if batch != [] {
      assert IndexOfVersion(msgs, start).Some?;
      var j := IndexOfVersion(msgs, start).value;
      forall k | 0 <= k < |batch| ensures CommittedAt(msgs, start + k, batch[k].messageId) {
        assert msgs[j + k].messageId == batch[k].messageId && msgs[j + k].streamVersion == start + k;
      }
    }
  }

  lemma CommittedImpliesMatches(sid: StreamId, s: Stream, start: int, batch: seq<NewMessage>)
    requires WellFormed(sid, s)
    requires forall k | 0 <= k < |batch| :: CommittedAt(s.messages, start + k, batch[k].messageId)
    ensures MatchesFrom(s.messages, start, batch)
  {
    var msgs := s.messages;
    if batch != [] {
      assert CommittedAt(msgs, start + 0, batch[0].messageId);
      var i0 :| 0 <= i0 < |msgs| && msgs[i0].streamVersion == start && msgs[i0].messageId == batch[0].messageId;
      IndexOfVersionFinds(sid, s, i0);
      CommittedRunAt(sid, s, start, batch, i0);
      MatchesFromAt(msgs, start, batch, i0);
    }
  }

  /** When every id is committed in order from version `start`, they sit in a run from its index. */
  lemma CommittedRunAt(sid: StreamId, s: Stream, start: int, batch: seq<NewMessage>, i0: nat)
    requires WellFormed(sid, s) && i0 < |s.messages| && s.messages[i0].streamVersion == start
    requires forall k | 0 <= k < |batch| :: CommittedAt(s.messages, start + k, batch[k].messageId)
    ensures i0 + |batch| <= |s.messages|
    ensures forall k | 0 <= k < |batch| ::
      s.messages[i0 + k].messageId == batch[k].messageId && s.messages[i0 + k].streamVersion == start + k
  {
    if batch != [] {
      PrefixVersionsTight(sid, s, i0, |batch| - 1, batch, start);
    }
    forall k | 0 <= k < |batch|
      ensures s.messages[i0 + k].messageId == batch[k].messageId && s.messages[i0 + k].streamVersion == start + k
    {
      PrefixVersionsTight(sid, s, i0, k, batch, start);
      SameVersionSameIndex(sid, s, start + k, batch[k].messageId, i0 + k);
    }
  }

  /** MatchesFrom, once the index of the start version is known. */
  lemma MatchesFromAt(msgs: seq<StreamMessage>, start: int, batch: seq<NewMessage>, j: nat)
    requires IndexOfVersion(msgs, start) == Some(j) && j + |batch| <= |msgs|
    requires forall k | 0 <= k < |batch| ::
      msgs[j + k].messageId == batch[k].messageId && msgs[j + k].streamVersion == start + k
    ensures MatchesFrom(msgs, start, batch)
  {
  }

  /** Versions are unique in a well-formed stream. */
  lemma SameVersionSameIndex(sid: StreamId, s: Stream, v: int, id: Guid, i: nat)
    requires WellFormed(sid, s) && i < |s.messages| && s.messages[i].streamVersion == v
    requires CommittedAt(s.messages, v, id)
    ensures s.messages[i].messageId == id
  {
    var ik :| 0 <= ik < |s.messages| && s.messages[ik].streamVersion == v && s.messages[ik].messageId == id;
    IndexOfVersionFinds(sid, s, ik);
    IndexOfVersionFinds(sid, s, i);
  }

  /**
   * Helper for the lemma above: when every version start..start+k is
   * visible, the one at start + k sits at index i0 + k at the latest.
   */
  lemma {:induction false} PrefixVersionsTight(sid: StreamId, s: Stream, i0: nat, k: nat, batch: seq<NewMessage>, start: int)
    requires WellFormed(sid, s) && i0 < |s.messages| && s.messages[i0].streamVersion == start
    requires k < |batch|
    requires forall q | 0 <= q < |batch| :: CommittedAt(s.messages, start + q, batch[q].messageId)
    ensures i0 + k < |s.messages| && s.messages[i0 + k].streamVersion == start + k
    decreases k
  {
    var msgs := s.messages;
    if k > 0 {
      PrefixVersionsTight(sid, s, i0, k - 1, batch, start);
      var ik :| 0 <= ik < |msgs| && msgs[ik].streamVersion == start + k && msgs[ik].messageId == batch[k].messageId;
      assert i0 + k - 1 < ik;
      assert msgs[i0 + k - 1].streamVersion < msgs[i0 + k].streamVersion;
    }
  }

  // ---------------------------------------------------------------------
  // Appends that write
  // ---------------------------------------------------------------------

  // ---------------------------------------------------------------------
  // Reads
  // ---------------------------------------------------------------------

  /** Reading forward from `v` returns exactly the visible messages with version at least `v`. */
  lemma {:induction false} AtOrAfterMembers(msgs: seq<StreamMessage>, v: int)
    ensures forall m :: m in AtOrAfter(msgs, v) <==> m in msgs && m.streamVersion >= v
  {
    if msgs != [] {
      AtOrAfterMembers(msgs[1..], v);
      assert msgs == [msgs[0]] + msgs[1..];
    }
  }

  /** Reading backward from `v` returns exactly the visible messages with version at most `v`. */
  lemma {:induction false} AtOrBeforeMembers(msgs: seq<StreamMessage>, v: int)
    ensures forall m :: m in AtOrBeforeNewestFirst(msgs, v) <==> m in msgs && m.streamVersion <= v
  {
    if msgs != [] {
      var n := |msgs| - 1;
      AtOrBeforeMembers(msgs[..n], v);
      assert msgs == msgs[..n] + [msgs[n]];
    }
  }

  /** Reading forward from a version at or below every version returns all messages. */
  lemma AtOrAfterKeepsAll(msgs: seq<StreamMessage>, v: int)
    requires forall i | 0 <= i < |msgs| :: msgs[i].streamVersion >= v
    ensures AtOrAfter(msgs, v) == msgs
  {
    if msgs != [] {
      AtOrAfterKeepsAll(msgs[1..], v);
    }
  }

  /**
   * NoStream or Any on a stream never written, with distinct ids: the N
   * messages get versions 0..N-1 and the next positions, the result is
   * CurrentVersion N-1, and all N are read back with status Success (an
   * empty batch creates an empty stream that reads as Success).
   */
  lemma AppendToNewStream(st: Store, sid: StreamId, e: ExpectedVersion, batch: seq<NewMessage>)
    requires sid !in st.streams
    requires e == NoStream || e == Any
    requires DistinctBatch(batch)
    ensures var o := Apply(st, sid, e, batch);
      && o.result == Success(AppendResult(|batch| - 1, if batch == [] then -1 else st.head + |batch|))
      && o.store.head == st.head + |batch|
      && var page := ReadStreamForwards(o.store, sid, 0, |batch|);
         && page.status == PageSuccess
         && |page.messages| == |batch|
         && forall k | 0 <= k < |batch| ::
              page.messages[k].messageId == batch[k].messageId
              && page.messages[k].streamVersion == k
              && page.messages[k].position == st.head + 1 + k
  {
    var o := Apply(st, sid, e, batch);
    var msgs := o.store.streams[sid].messages;
    assert msgs == Committed(sid, batch, 0, st.head + 1);
    AtOrAfterKeepsAll(msgs, 0);
  }

  /**
   * An explicit expected version equal to the stream's version, with ids
   * that are distinct and new to the stream: the messages get versions
   * V+1..V+N, the result is CurrentVersion V+N, and the current position
   * moves strictly forward.
   */
  lemma AppendAtExpectedVersion(st: Store, sid: StreamId, batch: seq<NewMessage>)
    requires ValidStore(st) && sid in st.streams
    requires st.streams[sid].version >= 0
    requires Fresh(st.streams[sid].messages, batch)
    ensures var s := st.streams[sid];
      var o := Apply(st, sid, Exactly(s.version), batch);
      && o.result.Success?
      && o.result.value.currentVersion == s.version + |batch|
      && (batch != [] ==> o.result.value.currentPosition == st.head + |batch| > s.position)
      && o.store.streams[sid].messages[..|s.messages|] == s.messages
      && |o.store.streams[sid].messages| == |s.messages| + |batch|
      && forall k | 0 <= k < |batch| ::
           o.store.streams[sid].messages[|s.messages| + k].messageId == batch[k].messageId
           && o.store.streams[sid].messages[|s.messages| + k].streamVersion == s.version + 1 + k
  {
  }

  /**
   * Positions across successive writing appends, to the same stream or
   * to different ones, grow by at least the number of messages written.
   */
  lemma SuccessiveAppendsAdvancePosition(st: Store, a: StreamId, ea: ExpectedVersion, ba: seq<NewMessage>,
                                         b: StreamId, eb: ExpectedVersion, bb: seq<NewMessage>)
    requires ValidStore(st)
    requires PlanAppend(Lookup(st, a), ea, ba) == Write
    requires PlanAppend(Lookup(Apply(st, a, ea, ba).store, b), eb, bb) == Write
    requires bb != []
    ensures var o1 := Apply(st, a, ea, ba);
      var o2 := Apply(o1.store, b, eb, bb);
      o1.result.Success? && o2.result.Success? &&
      o2.result.value.currentPosition >= o1.result.value.currentPosition + |bb|
  {
    var o1 := Apply(st, a, ea, ba);
    ApplyPreservesValid(st, a, ea, ba);
    assert o1.result.value.currentPosition == o1.store.streams[a].position;
  }

  /**
   * Any, with ids none of which the stream has seen, appends them at the
   * tail: versions C+1..C+N, CurrentVersion C+N, positions after the head.
   */
  lemma AnyFreshAppendsAtTail(st: Store, sid: StreamId, batch: seq<NewMessage>)
    requires sid in st.streams && batch != []
    requires Fresh(st.streams[sid].messages, batch)
    ensures var s := st.streams[sid];
      var o := Apply(st, sid, Any, batch);
      && o.result == Success(AppendResult(s.version + |batch|, st.head + |batch|))
      && o.store.streams[sid].messages == s.messages + Committed(sid, batch, s.version + 1, st.head + 1)
  {
    var s := st.streams[sid];
    assert IndexOfId(s.messages, batch[0].messageId).None?;
  }

  /**
   * An empty append with NoStream or Any creates the stream: it reads with
   * status Success and no messages, the result is CurrentVersion -1, and a
   * later EmptyStream append numbers its messages from 0.
   */
  lemma EmptyAppendCreatesStream(st: Store, sid: StreamId, e: ExpectedVersion, later: seq<NewMessage>, n: nat)
    requires sid !in st.streams && (e == NoStream || e == Any)
    requires DistinctBatch(later) && later != []
    ensures var o := Apply(st, sid, e, []);
      && o.result == Success(AppendResult(-1, -1))
      && o.store.head == st.head
      && ReadStreamForwards(o.store, sid, 0, n).status == PageSuccess
      && ReadStreamForwards(o.store, sid, 0, n).messages == []
      && var o2 := Apply(o.store, sid, EmptyStream, later);
         && o2.result == Success(AppendResult(|later| - 1, st.head + |later|))
         && o2.store.streams[sid].messages[0].streamVersion == 0
  {
    var o := Apply(st, sid, e, []);
    assert o.store.streams[sid] == Untouched;
    assert Committed(sid, later, 0, st.head + 1)[0].streamVersion == 0;
  }

  /** An empty append at the stream's current version returns that version and changes nothing. */
  lemma EmptyAppendAtCurrentVersion(st: Store, sid: StreamId)
    requires sid in st.streams && st.streams[sid].version >= 0
    ensures var s := st.streams[sid];
      Apply(st, sid, Exactly(s.version), []) == AppendOutcome(st, Success(AppendResult(s.version, s.position)))
  {
    var s := st.streams[sid];
    assert Appended(s, sid, [], st.head) == s;
    assert st.streams[sid := s] == st.streams;
  }

  // ---------------------------------------------------------------------
  // Idempotent replays
  // ---------------------------------------------------------------------

  /** A version not among the first messages is found at the head of what follows them. */
  lemma {:induction false} IndexOfVersionPastPrefix(a: seq<StreamMessage>, b: seq<StreamMessage>, v: int)
    requires forall i | 0 <= i < |a| :: a[i].streamVersion != v
    requires b != [] && b[0].streamVersion == v
    ensures IndexOfVersion(a + b, v) == Some(|a|)
  {
    if a != [] {
      assert (a + b)[1..] == a[1..] + b;
      IndexOfVersionPastPrefix(a[1..], b, v);
    }
  }

  /** An id not among the first messages is found at the head of what follows them. */
  lemma {:induction false} IndexOfIdPastPrefix(a: seq<StreamMessage>, b: seq<StreamMessage>, id: Guid)
    requires forall i | 0 <= i < |a| :: a[i].messageId != id
    requires b != [] && b[0].messageId == id
    ensures IndexOfId(a + b, id) == Some(|a|)
  {
    if a != [] {
      assert (a + b)[1..] == a[1..] + b;
      IndexOfIdPastPrefix(a[1..], b, id);
    }
  }

  /** A leading prefix of a replay is a replay from the same version. */
  lemma MatchesFromPrefix(msgs: seq<StreamMessage>, start: int, batch: seq<NewMessage>, n: nat)
    requires MatchesFrom(msgs, start, batch) && n <= |batch|
    ensures MatchesFrom(msgs, start, batch[..n])
  {
    if n > 0 {
      var j := IndexOfVersion(msgs, start).value;
      forall k | 0 <= k < n
        ensures msgs[j + k].messageId == batch[..n][k].messageId && msgs[j + k].streamVersion == start + k
      {
        assert batch[..n][k] == batch[k];
      }
    }
  }

  /** No visible message carries a version past the stream's counter (part of WellFormed). */
  ghost predicate VersionsBounded(s: Stream) {
    forall i | 0 <= i < |s.messages| :: s.messages[i].streamVersion <= s.version
  }

  /** After writing a fresh batch, every prefix of it matches from the first new version. */
  lemma AppendedBatchMatches(s: Stream, sid: StreamId, batch: seq<NewMessage>, head: int, n: nat)
    requires VersionsBounded(s) && n <= |batch|
    ensures MatchesFrom(Appended(s, sid, batch, head).messages, s.version + 1, batch[..n])
  {
    if n > 0 {
      var c := Committed(sid, batch, s.version + 1, head + 1);
      IndexOfVersionPastPrefix(s.messages, c, s.version + 1);
      MatchesFromAt(s.messages + c, s.version + 1, batch[..n], |s.messages|);
    }
  }

  /**
   * After writing a fresh non-empty batch under Any, its first id is found
   * at the first new index.
   */
  lemma AppendedFirstId(s: Stream, sid: StreamId, batch: seq<NewMessage>, head: int)
    requires Fresh(s.messages, batch) && batch != []
    ensures var s' := Appended(s, sid, batch, head);
      IndexOfId(s'.messages, batch[0].messageId) == Some(|s.messages|) &&
      s'.messages[|s.messages|].streamVersion == s.version + 1
  {
    var c := Committed(sid, batch, s.version + 1, head + 1);
    IndexOfIdPastPrefix(s.messages, c, batch[0].messageId);
  }

  /**
   * The idempotent replay law: once an append has succeeded, appending the
   * same ids again, or any leading prefix of them, with the same expected
   * version changes nothing and returns the same CurrentVersion and
   * CurrentPosition as the first call.
   */
  lemma ReplayIsIdempotent(st: Store, sid: StreamId, e: ExpectedVersion, batch: seq<NewMessage>, n: nat)
    requires ValidStore(st) && n <= |batch|
    requires Apply(st, sid, e, batch).result.Success?
    ensures var o := Apply(st, sid, e, batch);
      Apply(o.store, sid, e, batch[..n]) == o
  {
    if PlanAppend(Lookup(st, sid), e, batch) == Replay {
      ReplayPrefix(st, sid, e, batch, n);
    } else {
      assert WellFormed(sid, Lookup(st, sid).GetOr(Untouched));
      assert VersionsBounded(Lookup(st, sid).GetOr(Untouched));
      ReplayAfterWrite(st, sid, e, batch, n);
    }
  }

  /** The replay law for a call that wrote. */
  lemma ReplayAfterWrite(st: Store, sid: StreamId, e: ExpectedVersion, batch: seq<NewMessage>, n: nat)
    requires VersionsBounded(Lookup(st, sid).GetOr(Untouched)) && n <= |batch|
    requires PlanAppend(Lookup(st, sid), e, batch) == Write
    ensures var o := Apply(st, sid, e, batch);
      Apply(o.store, sid, e, batch[..n]) == o
  {
    var o := Apply(st, sid, e, batch);
    var s := Lookup(st, sid).GetOr(Untouched);
    var s' := Appended(s, sid, batch, st.head);
    assert o.store == Store(st.streams[sid := s'], st.head + |batch|);
    assert Lookup(o.store, sid) == Some(s');
    if batch == [] {
      assert batch[..n] == batch;
      if !e.Any? {
        assert PlanAppend(Some(s'), e, batch) == Write;
        assert Appended(s', sid, [], o.store.head) == s';
        assert o.store.streams[sid := s'] == o.store.streams;
      }
    } else {
      ReplayPlanAfterWrite(s, sid, e, batch, st.head, n);
    }
  }

  /** After a non-empty write, the same expected version sees any prefix as a replay. */
  lemma ReplayPlanAfterWrite(s: Stream, sid: StreamId, e: ExpectedVersion, batch: seq<NewMessage>, head: int, n: nat)
    requires VersionsBounded(s) && n <= |batch| && batch != []
    requires Fresh(s.messages, batch)
    requires match e
      case Any => true
      case Exactly(v) => v == s.version
      case _ => s.version == -1
    ensures PlanAppend(Some(Appended(s, sid, batch, head)), e, batch[..n]) == Replay
  {
    match e
    case Any => AnyReplayPlanAfterWrite(s, sid, batch, head, n);
    case Exactly(v) => ExactlyReplayPlanAfterWrite(s, sid, v, batch, head, n);
    case _ =>
      AppendedBatchMatches(s, sid, batch, head, n);
      assert Appended(s, sid, batch, head).version >= 0;
  }

  /** After a non-empty write at the current version, that version sees any prefix as a replay. */
  lemma ExactlyReplayPlanAfterWrite(s: Stream, sid: StreamId, v: nat, batch: seq<NewMessage>, head: int, n: nat)
    requires VersionsBounded(s) && n <= |batch| && batch != [] && v == s.version
    ensures PlanAppend(Some(Appended(s, sid, batch, head)), Exactly(v), batch[..n]) == Replay
  {
    AppendedBatchMatches(s, sid, batch, head, n);
    assert v < Appended(s, sid, batch, head).version;
  }

  /** After a non-empty write under Any, Any sees any prefix of the batch as a replay. */
  lemma AnyReplayPlanAfterWrite(s: Stream, sid: StreamId, batch: seq<NewMessage>, head: int, n: nat)
    requires VersionsBounded(s) && n <= |batch| && batch != []
    requires Fresh(s.messages, batch)
    ensures PlanAppend(Some(Appended(s, sid, batch, head)), Any, batch[..n]) == Replay
  {
    AppendedBatchMatches(s, sid, batch, head, n);
    if n > 0 {
      AppendedFirstId(s, sid, batch, head);
      assert batch[..n][0] == batch[0];
    }
  }

  /** A prefix of a recognised replay is a recognised replay. */
  lemma ReplayPrefix(st: Store, sid: StreamId, e: ExpectedVersion, batch: seq<NewMessage>, n: nat)
    requires n <= |batch|
    requires PlanAppend(Lookup(st, sid), e, batch) == Replay
    ensures PlanAppend(Lookup(st, sid), e, batch[..n]) == Replay
  {
    var s := Lookup(st, sid).GetOr(Untouched);
    match e
    case NoStream => MatchesFromPrefix(s.messages, 0, batch, n);
    case EmptyStream => MatchesFromPrefix(s.messages, 0, batch, n);
    case Exactly(v) => if v < s.version { MatchesFromPrefix(s.messages, v + 1, batch, n); }
    case Any =>
      if n > 0 {
        var i := IndexOfId(s.messages, batch[0].messageId).value;
        MatchesFromPrefix(s.messages, s.messages[i].streamVersion, batch, n);
        assert batch[..n][0] == batch[0];
      }
  }

  // ---------------------------------------------------------------------
  // What an append touches, and when it is refused
  // ---------------------------------------------------------------------

  /**
   * An append only ever touches its own stream, only ever adds at the
   * tail, never moves the head back, and reports the stream's counters as
   * they stand afterwards; a refused append changes nothing.
   */
  lemma AppendTouchesOnlyItsStream(st: Store, sid: StreamId, e: ExpectedVersion, batch: seq<NewMessage>)
    ensures var o := Apply(st, sid, e, batch);
      && o.store.head >= st.head
      && (forall x | x != sid :: Lookup(o.store, x) == Lookup(st, x))
      && (sid in st.streams ==>
            && sid in o.store.streams
            && |st.streams[sid].messages| <= |o.store.streams[sid].messages|
            && o.store.streams[sid].messages[..|st.streams[sid].messages|] == st.streams[sid].messages)
      && (o.result.Success? ==>
            && sid in o.store.streams
            && o.result.value == AppendResult(o.store.streams[sid].version, o.store.streams[sid].position))
      && (o.result.Failure? ==> o.store == st && o.result.error == WrongExpectedVersion(sid, e))
  {
  }

  /** A batch that repeats an id is never written, whatever the expected version. */
  lemma RepeatedIdsNeverWritten(current: Option<Stream>, e: ExpectedVersion, batch: seq<NewMessage>, i: nat, j: nat)
    requires i < j < |batch| && batch[i].messageId == batch[j].messageId
    ensures PlanAppend(current, e, batch) != Write
  {
  }

  /**
   * An explicit expected version equal to the current one is refused when
   * any id of the batch is already committed in the stream: such an append
   * is neither written nor a replay.
   */
  lemma ExactlyCurrentCommittedIdConflicts(st: Store, sid: StreamId, batch: seq<NewMessage>, k: nat, i: nat)
    requires sid in st.streams && st.streams[sid].version >= 0
    requires k < |batch| && i < |st.streams[sid].messages|
    requires st.streams[sid].messages[i].messageId == batch[k].messageId
    ensures var v: nat := st.streams[sid].version;
      Apply(st, sid, Exactly(v), batch) == AppendOutcome(st, Failure(WrongExpectedVersion(sid, Exactly(v))))
  {
  }

  /**
   * An explicit expected version other than the current one is refused as
   * soon as one of the ids is not the one committed at the version it would
   * replay (a stale version with new ids, ids that run past the tail, a
   * version ahead of the stream).
   */
  lemma ExplicitVersionConflicts(st: Store, sid: StreamId, v: nat, batch: seq<NewMessage>, k: nat)
    requires sid in st.streams && v != st.streams[sid].version
    requires k < |batch| && !CommittedAt(st.streams[sid].messages, v + 1 + k, batch[k].messageId)
    ensures Apply(st, sid, Exactly(v), batch) == AppendOutcome(st, Failure(WrongExpectedVersion(sid, Exactly(v))))
  {
    var msgs := st.streams[sid].messages;
    if v < st.streams[sid].version && MatchesFrom(msgs, v + 1, batch) {
      MatchesImpliesCommitted(msgs, v + 1, batch);
      assert false;
    }
  }

  /**
   * An explicit expected version below the current one is an idempotent
   * replay when every id is the one committed at its place from the next
   * version, whichever expected version first wrote those messages: nothing
   * changes and the stream's current version and position come back.
   */
  lemma ExplicitVersionReplay(st: Store, sid: StreamId, v: nat, batch: seq<NewMessage>)
    requires ValidStore(st) && sid in st.streams && v < st.streams[sid].version
    requires forall k | 0 <= k < |batch| :: CommittedAt(st.streams[sid].messages, v + 1 + k, batch[k].messageId)
    ensures Apply(st, sid, Exactly(v), batch) ==
      AppendOutcome(st, Success(AppendResult(st.streams[sid].version, st.streams[sid].position)))
  {
    var s := st.streams[sid];
    assert WellFormed(sid, s);
    CommittedImpliesMatches(sid, s, v + 1, batch);
  }

  /**
   * NoStream on a stream that has been written is refused as soon as one
   * of the ids is not the one committed at its position from version 0.
   */
  lemma NoStreamConflicts(st: Store, sid: StreamId, batch: seq<NewMessage>, k: nat)
    requires sid in st.streams && st.streams[sid].version >= 0
    requires k < |batch| && !CommittedAt(st.streams[sid].messages, k, batch[k].messageId)
    ensures Apply(st, sid, NoStream, batch) == AppendOutcome(st, Failure(WrongExpectedVersion(sid, NoStream)))
  {
    var msgs := st.streams[sid].messages;
    if MatchesFrom(msgs, 0, batch) {
      MatchesImpliesCommitted(msgs, 0, batch);
      assert false;
    }
  }

  /**
   * Any, with a first id already committed at version w, is refused as
   * soon as a later id is not the one committed at its place from w (ids
   * out of order, or committed ids followed by new ones).
   */
  lemma AnyConflicts(st: Store, sid: StreamId, batch: seq<NewMessage>, i: nat, k: nat)
    requires ValidStore(st) && sid in st.streams
    requires i < |st.streams[sid].messages| && batch != [] && st.streams[sid].messages[i].messageId == batch[0].messageId
    requires k < |batch| && !CommittedAt(st.streams[sid].messages, st.streams[sid].messages[i].streamVersion + k, batch[k].messageId)
    ensures Apply(st, sid, Any, batch) == AppendOutcome(st, Failure(WrongExpectedVersion(sid, Any)))
  {
    var s := st.streams[sid];
    assert WellFormed(sid, s);
    IndexOfIdFinds(sid, s, i);
    var w := s.messages[i].streamVersion;
    if MatchesFrom(s.messages, w, batch) {
      MatchesImpliesCommitted(s.messages, w, batch);
      assert false;
    }
  }

  /**
   * Any, with a first id already committed, is refused when a later id is
   * one the stream has never shown (committed ids followed by new ones).
   */
  lemma AnyCommittedThenNewConflicts(st: Store, sid: StreamId, batch: seq<NewMessage>, i: nat, k: nat)
    requires ValidStore(st) && sid in st.streams
    requires i < |st.streams[sid].messages| && batch != [] && st.streams[sid].messages[i].messageId == batch[0].messageId
    requires k < |batch| && forall q | 0 <= q < |st.streams[sid].messages| :: st.streams[sid].messages[q].messageId != batch[k].messageId
    ensures Apply(st, sid, Any, batch) == AppendOutcome(st, Failure(WrongExpectedVersion(sid, Any)))
  {
    var msgs := st.streams[sid].messages;
    assert !CommittedAt(msgs, msgs[i].streamVersion + k, batch[k].messageId);
    AnyConflicts(st, sid, batch, i, k);
  }

  /**
   * Any, with a first id the stream has not seen, is refused when a later
   * id has been committed (new ids followed by committed ones).
   */
  lemma AnyNewThenCommittedConflicts(st: Store, sid: StreamId, batch: seq<NewMessage>, i: nat, k: nat)
    requires sid in st.streams && batch != []
    requires forall q | 0 <= q < |st.streams[sid].messages| :: st.streams[sid].messages[q].messageId != batch[0].messageId
    requires k < |batch| && i < |st.streams[sid].messages| && st.streams[sid].messages[i].messageId == batch[k].messageId
    ensures Apply(st, sid, Any, batch) == AppendOutcome(st, Failure(WrongExpectedVersion(sid, Any)))
  {
  }

  /**
   * Any, when every id is committed in order from the first one's version,
   * is an idempotent replay: nothing changes and the stream's current
   * version and position come back.
   */
  lemma AnyCommittedRunIsReplay(st: Store, sid: StreamId, batch: seq<NewMessage>, i: nat)
    requires ValidStore(st) && sid in st.streams
    requires i < |st.streams[sid].messages| && batch != [] && st.streams[sid].messages[i].messageId == batch[0].messageId
    requires forall k | 0 <= k < |batch| ::
      CommittedAt(st.streams[sid].messages, st.streams[sid].messages[i].streamVersion + k, batch[k].messageId)
    ensures Apply(st, sid, Any, batch) ==
      AppendOutcome(st, Success(AppendResult(st.streams[sid].version, st.streams[sid].position)))
  {
    var s := st.streams[sid];
    assert WellFormed(sid, s);
    IndexOfIdFinds(sid, s, i);
    CommittedImpliesMatches(sid, s, s.messages[i].streamVersion, batch);
  }

  // ---------------------------------------------------------------------
  // Deletion
  // ---------------------------------------------------------------------

  /** Deleting an id the stream does not show, or from a missing stream, changes nothing. */
  lemma DeleteMissingIsNoOp(st: Store, sid: StreamId, messageId: Guid, tombstoneId: Guid)
    requires sid in st.streams ==>
      forall i | 0 <= i < |st.streams[sid].messages| :: st.streams[sid].messages[i].messageId != messageId
    ensures DeleteMessage(st, sid, messageId, tombstoneId) == st
  {
  }

  /**
   * Deleting a visible message removes exactly that message from its
   * stream, keeps the stream's version and position (nothing is
   * renumbered, LastStreamVersion stays), and touches no other stream but
   * the deleted stream.
   */
  lemma DeleteRemovesExactlyThatMessage(st: Store, sid: StreamId, messageId: Guid, tombstoneId: Guid, i: nat)
    requires ValidStore(st) && sid in st.streams && sid != DeletedStreamId
    requires i < |st.streams[sid].messages| && st.streams[sid].messages[i].messageId == messageId
    ensures var s := st.streams[sid];
      var st' := DeleteMessage(st, sid, messageId, tombstoneId);
      && sid in st'.streams
      && st'.streams[sid].version == s.version
      && st'.streams[sid].position == s.position
      && |st'.streams[sid].messages| == |s.messages| - 1
      && (forall m :: m in st'.streams[sid].messages <==> m in s.messages && m.messageId != messageId)
      && (forall x | x != sid && x != DeletedStreamId :: Lookup(st', x) == Lookup(st, x))
  {
    var s := st.streams[sid];
    assert WellFormed(sid, s);
    IndexOfIdFinds(sid, s, i);
    RemoveAtMembership(s.messages, i);
  }

  /** Removing the only message with a given id leaves exactly the others. */
  lemma RemoveAtMembership(msgs: seq<StreamMessage>, i: nat)
    requires i < |msgs|
    requires forall p, q | 0 <= p < q < |msgs| :: msgs[p].messageId != msgs[q].messageId
    ensures forall m :: m in msgs[..i] + msgs[i + 1..] <==> m in msgs && m.messageId != msgs[i].messageId
  {
    var rest := msgs[..i] + msgs[i + 1..];
    forall m ensures m in rest <==> m in msgs && m.messageId != msgs[i].messageId {
      if m in rest {
        var q :| 0 <= q < |rest| && rest[q] == m;
        assert m == msgs[if q < i then q else q + 1];
      }
      if m in msgs && m.messageId != msgs[i].messageId {
        var q :| 0 <= q < |msgs| && msgs[q] == m;
        assert m == rest[if q < i then q else q - 1];
      }
    }
  }

  /**
   * Deleting a visible message appends one tombstone to the deleted
   * stream: read backwards from its end, the newest message is a
   * MessageDeleted record naming the stream and the id, at the next
   * version and the next position (the tombstone's own id is assumed new
   * to the deleted stream, as a fresh Guid is).
   */
  lemma DeleteAppendsTombstone(st: Store, sid: StreamId, messageId: Guid, tombstoneId: Guid, i: nat)
    requires ValidStore(st) && sid in st.streams && sid != DeletedStreamId
    requires i < |st.streams[sid].messages| && st.streams[sid].messages[i].messageId == messageId
    requires DeletedStreamId in st.streams ==>
      forall q | 0 <= q < |st.streams[DeletedStreamId].messages| ::
        st.streams[DeletedStreamId].messages[q].messageId != tombstoneId
    ensures var st' := DeleteMessage(st, sid, messageId, tombstoneId);
      var d := Lookup(st, DeletedStreamId).GetOr(Untouched);
      && st'.head == st.head + 1
      && ReadStreamBackwards(st', DeletedStreamId, EndVersion, 1).messages ==
           [StreamMessage(DeletedStreamId, tombstoneId, d.version + 1, st.head + 1,
                          MessageDeletedType, MessageDeleted(sid, messageId))]
  {
    var s := st.streams[sid];
    assert WellFormed(sid, s);
    IndexOfIdFinds(sid, s, i);
    var hidden := WithoutMessage(st, sid, i);
    var tomb := [Tombstone(tombstoneId, sid, messageId)];
    var d := Lookup(st, DeletedStreamId).GetOr(Untouched);
    assert Lookup(hidden, DeletedStreamId) == Lookup(st, DeletedStreamId);
    assert PlanAppend(Lookup(hidden, DeletedStreamId), Any, tomb) == Write;
    var d' := Appended(d, DeletedStreamId, tomb, st.head);
    var last := StreamMessage(DeletedStreamId, tombstoneId, d.version + 1, st.head + 1,
                              MessageDeletedType, MessageDeleted(sid, messageId));
    assert d'.messages == d.messages + [last];
    assert d'.messages[|d'.messages| - 1] == last;
    assert AtOrBeforeNewestFirst(d'.messages, d'.version)[..1] == [last];
  }

  /**
   * After a deletion, an append with the unchanged version as expected
   * version continues the numbering: the new messages take the versions
   * after the deleted one's, never the deleted version again.
   */
  lemma AppendAfterDeleteContinuesVersions(st: Store, sid: StreamId, messageId: Guid, tombstoneId: Guid, i: nat,
                                           batch: seq<NewMessage>)
    requires ValidStore(st) && sid in st.streams && sid != DeletedStreamId
    requires i < |st.streams[sid].messages| && st.streams[sid].messages[i].messageId == messageId
    requires Fresh(st.streams[sid].messages, batch)
    ensures var v := st.streams[sid].version;
      var o := Apply(DeleteMessage(st, sid, messageId, tombstoneId), sid, Exactly(v), batch);
      o.result.Success? && o.result.value.currentVersion == v + |batch|
    ensures var v := st.streams[sid].version;
      var st' := DeleteMessage(st, sid, messageId, tombstoneId);
      var o := Apply(st', sid, Exactly(v), batch);
      && sid in st'.streams && sid in o.store.streams
      && o.store.streams[sid].messages == st'.streams[sid].messages + Committed(sid, batch, v + 1, st'.head + 1)
  {
    DeleteRemovesExactlyThatMessage(st, sid, messageId, tombstoneId, i);
    var st' := DeleteMessage(st, sid, messageId, tombstoneId);
    var s := st.streams[sid];
    forall k, q | 0 <= k < |batch| && 0 <= q < |st'.streams[sid].messages|
      ensures batch[k].messageId != st'.streams[sid].messages[q].messageId
    {
      assert st'.streams[sid].messages[q] in s.messages;
    }
    assert Fresh(st'.streams[sid].messages, batch);
  }
}
