/**
 * The stream store as an object: a map of streams and a head position,
 * changed in place by AppendToStream and DeleteMessage. Every method is
 * proved to do exactly what the functions of module Streams say, so the
 * laws of module StreamStoreLaws hold of the object's successive states.
 * The version and id lookups, the replay test and the freshness test are
 * loops over the stream's messages.
 */
module InMemoryStreamStore {
  import opened Wrappers
  import opened NewStreamEvents
  import opened Streams
  import opened StreamStoreLaws

  /** The index of the first message with version `v`, by a scan. */
  method FindVersion(msgs: seq<StreamMessage>, v: int) returns (r: Option<nat>)
    ensures r == IndexOfVersion(msgs, v)
  {
    var i := 0;
    while i < |msgs|
      invariant 0 <= i <= |msgs|
      invariant forall j | 0 <= j < i :: msgs[j].streamVersion != v
    {
      if msgs[i].streamVersion == v {
        return Some(i);
      }
      i := i + 1;
    }
    return None;
  }

  /** The index of the first message with id `id`, by a scan. */
  method FindId(msgs: seq<StreamMessage>, id: Guid) returns (r: Option<nat>)
    ensures r == IndexOfId(msgs, id)
  {
    var i := 0;
    while i < |msgs|
      invariant 0 <= i <= |msgs|
      invariant forall j | 0 <= j < i :: msgs[j].messageId != id
    {
      if msgs[i].messageId == id {
        return Some(i);
      }
      i := i + 1;
    }
    return None;
  }

  /** Whether the batch replays the messages from version `start`, compared id by id. */
  method CheckMatchesFrom(msgs: seq<StreamMessage>, start: int, batch: seq<NewMessage>) returns (b: bool)
    ensures b == MatchesFrom(msgs, start, batch)
  {
    if batch == [] {
      return true;
    }
    var found := FindVersion(msgs, start);
    if found.None? {
      return false;
    }
    var j := found.value;
    if j + |batch| > |msgs| {
      return false;
    }
    var k := 0;
    while k < |batch|
      invariant 0 <= k <= |batch|
      invariant forall q | 0 <= q < k ::
        msgs[j + q].messageId == batch[q].messageId && msgs[j + q].streamVersion == start + q
    {
      if msgs[j + k].messageId != batch[k].messageId || msgs[j + k].streamVersion != start + k {
        return false;
      }
      k := k + 1;
    }
    MatchesFromAt(msgs, start, batch, j);
    return true;
  }

  /** Whether the batch's ids are distinct and new to the stream. */
  method CheckFresh(msgs: seq<StreamMessage>, batch: seq<NewMessage>) returns (b: bool)
    ensures b == Fresh(msgs, batch)
  {
    var committed: set<Guid> := {};
    var i := 0;
    while i < |msgs|
      invariant 0 <= i <= |msgs|
      invariant committed == set q | 0 <= q < i :: msgs[q].messageId
    {
      committed := committed + {msgs[i].messageId};
      i := i + 1;
    }
    var seen: set<Guid> := {};
    var k := 0;
    while k < |batch|
      invariant 0 <= k <= |batch|
      invariant seen == set q | 0 <= q < k :: batch[q].messageId
      invariant forall p, q | 0 <= p < q < k :: batch[p].messageId != batch[q].messageId
      invariant forall q, p | 0 <= q < k && 0 <= p < |msgs| :: batch[q].messageId != msgs[p].messageId
    {
      if batch[k].messageId in seen {
        var p :| 0 <= p < k && batch[p].messageId == batch[k].messageId;
        return false;
      }
      if batch[k].messageId in committed {
        var p :| 0 <= p < |msgs| && msgs[p].messageId == batch[k].messageId;
        return false;
      }
      seen := seen + {batch[k].messageId};
      k := k + 1;
    }
    return true;
  }

  /** The expected-version check, computed with the scans above. */
  method DecidePlan(current: Option<Stream>, expected: ExpectedVersion, batch: seq<NewMessage>) returns (p: Plan)
    ensures p == PlanAppend(current, expected, batch)
  {
    var s := current.GetOr(Untouched);
    var matches: bool;
    match expected
    case NoStream =>
      if s.version == -1 {
        var isFresh := CheckFresh(s.messages, batch);
        p := if isFresh then Write else Conflict;
      } else {
        matches := CheckMatchesFrom(s.messages, 0, batch);
        p := if matches then Replay else Conflict;
      }
    case EmptyStream =>
      if current.None? {
        p := Conflict;
      } else if s.version == -1 {
        var isFresh := CheckFresh(s.messages, batch);
        p := if isFresh then Write else Conflict;
      } else {
        matches := CheckMatchesFrom(s.messages, 0, batch);
        p := if matches then Replay else Conflict;
      }
    case Exactly(v) =>
      if current.None? || v > s.version {
        p := Conflict;
      } else if v == s.version {
        var isFresh := CheckFresh(s.messages, batch);
        p := if isFresh then Write else Conflict;
      } else {
        matches := CheckMatchesFrom(s.messages, v + 1, batch);
        p := if matches then Replay else Conflict;
      }
    case Any =>
      if current.None? {
        var isFresh := CheckFresh(s.messages, batch);
        p := if isFresh then Write else Conflict;
      } else if batch == [] {
        p := Replay;
      } else {
        var found := FindId(s.messages, batch[0].messageId);
        match found
        case Some(i) =>
          matches := CheckMatchesFrom(s.messages, s.messages[i].streamVersion, batch);
          p := if matches then Replay else Conflict;
        case None =>
          var isFresh := CheckFresh(s.messages, batch);
          p := if isFresh then Write else Conflict;
      }
  }

  /** The messages with version at least `v`, oldest first, by a forward scan. */
  method OldestFirstFrom(msgs: seq<StreamMessage>, v: int) returns (all: seq<StreamMessage>)
    ensures all == AtOrAfter(msgs, v)
  {
    all := [];
    var i := 0;
    while i < |msgs|
      invariant 0 <= i <= |msgs|
      invariant AtOrAfter(msgs, v) == all + AtOrAfter(msgs[i..], v)
    {
      OldestFirstStep(msgs, i, v, all);
      if msgs[i].streamVersion >= v {
        all := all + [msgs[i]];
      }
      i := i + 1;
    }
  }

  /** One step of the forward scan: the oldest message of the unscanned suffix comes next. */
  lemma OldestFirstStep(msgs: seq<StreamMessage>, i: nat, v: int, all: seq<StreamMessage>)
    requires i < |msgs|
    requires AtOrAfter(msgs, v) == all + AtOrAfter(msgs[i..], v)
    ensures AtOrAfter(msgs, v) ==
      (all + if msgs[i].streamVersion >= v then [msgs[i]] else []) + AtOrAfter(msgs[i + 1..], v)
  {
    assert msgs[i..][1..] == msgs[i + 1..];
    var head := if msgs[i].streamVersion >= v then [msgs[i]] else [];
    assert AtOrAfter(msgs[i..], v) == head + AtOrAfter(msgs[i + 1..], v);
    assert all + (head + AtOrAfter(msgs[i + 1..], v)) == (all + head) + AtOrAfter(msgs[i + 1..], v);
  }

  /** The messages with version at most `v`, newest first, by a backward scan. */
  method NewestFirstUpTo(msgs: seq<StreamMessage>, v: int) returns (all: seq<StreamMessage>)
    ensures all == AtOrBeforeNewestFirst(msgs, v)
  {
    all := [];
    var i := |msgs|;
    assert msgs[..i] == msgs;
    while i > 0
      invariant 0 <= i <= |msgs|
      invariant AtOrBeforeNewestFirst(msgs, v) == all + AtOrBeforeNewestFirst(msgs[..i], v)
    {
      NewestFirstStep(msgs, i, v, all);
      if msgs[i - 1].streamVersion <= v {
        all := all + [msgs[i - 1]];
      }
      i := i - 1;
    }
  }

  /** One step of the backward scan: the newest message of the unscanned prefix comes next. */
  lemma NewestFirstStep(msgs: seq<StreamMessage>, i: nat, v: int, all: seq<StreamMessage>)
    requires 0 < i <= |msgs|
    requires AtOrBeforeNewestFirst(msgs, v) == all + AtOrBeforeNewestFirst(msgs[..i], v)
    ensures AtOrBeforeNewestFirst(msgs, v) ==
      (all + if msgs[i - 1].streamVersion <= v then [msgs[i - 1]] else []) + AtOrBeforeNewestFirst(msgs[..i - 1], v)
  {
    assert msgs[..i][..i - 1] == msgs[..i - 1];
    var head := if msgs[i - 1].streamVersion <= v then [msgs[i - 1]] else [];
    assert AtOrBeforeNewestFirst(msgs[..i], v) == head + AtOrBeforeNewestFirst(msgs[..i - 1], v);
    assert all + (head + AtOrBeforeNewestFirst(msgs[..i - 1], v)) == (all + head) + AtOrBeforeNewestFirst(msgs[..i - 1], v);
  }

  /** Committing one more message extends the committed run by that message. */
  lemma CommittedSnoc(sid: StreamId, batch: seq<NewMessage>, k: nat, firstVersion: int, firstPosition: int)
    requires k < |batch|
    ensures Committed(sid, batch[..k + 1], firstVersion, firstPosition) ==
      Committed(sid, batch[..k], firstVersion, firstPosition) +
      [StreamMessage(sid, batch[k].messageId, firstVersion + k, firstPosition + k,
                     batch[k].messageType, batch[k].payload)]
  {
  }

  /** The messages followed by the batch committed from the given version and position on. */
  method CommitBatch(messages: seq<StreamMessage>, sid: StreamId, batch: seq<NewMessage>,
                     firstVersion: int, firstPosition: int) returns (msgs: seq<StreamMessage>)
    ensures msgs == messages + Committed(sid, batch, firstVersion, firstPosition)
  {
    msgs := messages;
    var k := 0;
    while k < |batch|
      invariant 0 <= k <= |batch|
      invariant msgs == messages + Committed(sid, batch[..k], firstVersion, firstPosition)
    {
      CommittedSnoc(sid, batch, k, firstVersion, firstPosition);
      msgs := msgs + [StreamMessage(sid, batch[k].messageId, firstVersion + k, firstPosition + k,
                                    batch[k].messageType, batch[k].payload)];
      k := k + 1;
    }
    assert batch[..|batch|] == batch;
  }

  /** An in-memory stream store. */
  class StreamStore {
    var streams: map<StreamId, Stream>
    var head: int

    /** The store as a value, for the functions of module Streams. */
    function State(): Store
      reads this
    {
      Store(streams, head)
    }

    ghost predicate Valid()
      reads this
    {
      ValidStore(State())
    }

    constructor()
      ensures State() == EmptyStore && Valid()
    {
      streams := map[];
      head := -1;
    }

    /** AppendToStream(streamId, expectedVersion, messages). */
    method AppendToStream(sid: StreamId, expected: ExpectedVersion, events: seq<NewStreamEvent>)
      returns (r: Result<AppendResult, AppendError>)
      requires Valid()
      modifies this
      ensures Valid()
      ensures State() == Apply(old(State()), sid, expected, ToMessages(events)).store
      ensures r == Apply(old(State()), sid, expected, ToMessages(events)).result
    {
      r := AppendMessages(sid, expected, ToMessages(events));
    }

    /** The append itself, on messages that already carry their ids. */
    method AppendMessages(sid: StreamId, expected: ExpectedVersion, batch: seq<NewMessage>)
      returns (r: Result<AppendResult, AppendError>)
      requires Valid()
      modifies this
      ensures Valid()
      ensures State() == Apply(old(State()), sid, expected, batch).store
      ensures r == Apply(old(State()), sid, expected, batch).result
    {
      ghost var st := State();
      var current := if sid in streams then Some(streams[sid]) else None;
      var s := current.GetOr(Untouched);
      var plan := DecidePlan(current, expected, batch);
      match plan
      case Conflict =>
        r := Failure(WrongExpectedVersion(sid, expected));
      case Replay =>
        r := Success(AppendResult(s.version, s.position));
      case Write =>
        var msgs := CommitBatch(s.messages, sid, batch, s.version + 1, head + 1);
        var s' := Stream(msgs, s.version + |batch|, if batch == [] then s.position else head + |batch|);
        assert s' == Appended(s, sid, batch, st.head);
        streams := streams[sid := s'];
        head := head + |batch|;
        r := Success(AppendResult(s'.version, s'.position));
        assert State() == Apply(st, sid, expected, batch).store;
        ApplyPreservesValid(st, sid, expected, batch);
    }

    /**
     * DeleteMessage(streamId, messageId): hide the message and append a
     * tombstone with id `tombstoneId` to the deleted stream.
     */
    method DeleteMessage(sid: StreamId, messageId: Guid, tombstoneId: Guid)
      requires Valid()
      modifies this
      ensures Valid()
      ensures State() == Streams.DeleteMessage(old(State()), sid, messageId, tombstoneId)
    {
      if sid !in streams {
        return;
      }
      var s := streams[sid];
      var found := FindId(s.messages, messageId);
      if found.None? {
        return;
      }
      var i := found.value;
      WithoutMessageValid(State(), sid, i);
      streams := streams[sid := s.(messages := s.messages[..i] + s.messages[i + 1..])];
      var _ := AppendMessages(DeletedStreamId, Any, [Tombstone(tombstoneId, sid, messageId)]);
    }

    /** ReadStreamForwards(streamId, fromVersionInclusive, maxCount). */
    method ReadStreamForwards(sid: StreamId, fromVersion: int, maxCount: nat) returns (page: ReadStreamPage)
      ensures page == Streams.ReadStreamForwards(State(), sid, fromVersion, maxCount)
    {
      if sid !in streams {
        return ReadStreamPage(sid, StreamNotFound, -1, true, []);
      }
      var s := streams[sid];
      var all := OldestFirstFrom(s.messages, fromVersion);
      page := ReadStreamPage(sid, PageSuccess, s.version, |all| <= maxCount, all[..Min(maxCount, |all|)]);
    }

    /** ReadStreamBackwards(streamId, fromVersionInclusive or End, maxCount). */
    method ReadStreamBackwards(sid: StreamId, fromVersion: int, maxCount: nat) returns (page: ReadStreamPage)
      ensures page == Streams.ReadStreamBackwards(State(), sid, fromVersion, maxCount)
    {
      if sid !in streams {
        return ReadStreamPage(sid, StreamNotFound, -1, true, []);
      }
      var s := streams[sid];
      var all := NewestFirstUpTo(s.messages, if fromVersion == EndVersion then s.version else fromVersion);
      page := ReadStreamPage(sid, PageSuccess, s.version, |all| <= maxCount, all[..Min(maxCount, |all|)]);
    }

    /** ReadHeadPosition(). */
    method ReadHeadPosition() returns (p: int)
      ensures p == Streams.ReadHeadPosition(State())
    {
      p := head;
    }
  }
}
