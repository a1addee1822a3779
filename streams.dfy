/**
 * The stream/position data model and the append, delete and read protocol
 * of the stream store, stated on store VALUES. The class in
 * in_memory_store.dfy changes a store in place and is proved to follow
 * these functions step by step.
 *
 * A store maps stream ids to streams and keeps a global head position.
 * A stream keeps its visible messages in version order plus the last
 * version and the last position it was ever given: deleting a message
 * removes it from the list but never renumbers, so the two counters stay.
 */
module Streams {
  import opened Wrappers
  import opened NewStreamEvents

  type StreamId = string

  /** The reserved stream that receives a tombstone for every deleted message. */
  const DeletedStreamId: StreamId := "$deleted"

  /** The type of a tombstone message. */
  const MessageDeletedType: string := "$message-deleted"

  /** StreamVersion.End: "read from the current tail". */
  const EndVersion: int := -1

  /** The caller's precondition on a stream's state before an append. */
  datatype ExpectedVersion = Any | NoStream | EmptyStream | Exactly(version: nat)

  /** A message body: caller JSON, or the record a deletion leaves behind. */
  datatype Payload =
    | Json(data: string, metadata: string)
    | MessageDeleted(deletedStreamId: StreamId, deletedMessageId: Guid)

  /** A message on its way into the store: no version or position yet. */
  datatype NewMessage = NewMessage(messageId: Guid, messageType: string, payload: Payload)

  /** A committed message, with the version and position assigned at commit. */
  datatype StreamMessage = StreamMessage(
    streamId: StreamId,
    messageId: Guid,
    streamVersion: int,
    position: int,
    messageType: string,
    payload: Payload)

  /**
   * A stream: its visible messages in version order, the last version it
   * was given (-1 if none) and the position of the last message appended
   * to it (-1 if none).
   */
  datatype Stream = Stream(messages: seq<StreamMessage>, version: int, position: int)

  /** What an append sees for a stream that has never been written. */
  const Untouched: Stream := Stream([], -1, -1)

  /** The whole store: its streams and the position of its last commit (-1 if none). */
  datatype Store = Store(streams: map<StreamId, Stream>, head: int)

  const EmptyStore: Store := Store(map[], -1)

  /** CurrentVersion and CurrentPosition of the stream after an append. */
  datatype AppendResult = AppendResult(currentVersion: int, currentPosition: int)

  datatype AppendError = WrongExpectedVersion(streamId: StreamId, expected: ExpectedVersion)

  datatype AppendOutcome = AppendOutcome(store: Store, result: Result<AppendResult, AppendError>)

  /** The record an application event becomes when it is appended. */
  function FromEvent(e: NewStreamEvent): NewMessage {
    NewMessage(e.eventId, e.eventType, Json(e.jsonData, e.jsonMetadata))
  }

  /** The messages an append of these events writes, in order. */
  function ToMessages(events: seq<NewStreamEvent>): (batch: seq<NewMessage>)
    ensures |batch| == |events|
    ensures forall k | 0 <= k < |events| :: batch[k].messageId == events[k].eventId
  {
    seq(|events|, k requires 0 <= k < |events| => FromEvent(events[k]))
  }

  // ---------------------------------------------------------------------
  // Invariants of the data model
  // ---------------------------------------------------------------------

  predicate DistinctBatch(batch: seq<NewMessage>) {
    forall i, j | 0 <= i < j < |batch| :: batch[i].messageId != batch[j].messageId
  }

  /**
   * A stream held under `sid`: its messages belong to it, carry versions
   * and positions that strictly increase and never exceed the stream's
   * counters, and no message id occurs twice.
   */
  ghost predicate WellFormed(sid: StreamId, s: Stream) {
    && -1 <= s.version && -1 <= s.position
    && (s.version == -1 ==> s.messages == [] && s.position == -1)
    && (forall i | 0 <= i < |s.messages| ::
          && s.messages[i].streamId == sid
          && 0 <= s.messages[i].streamVersion <= s.version
          && 0 <= s.messages[i].position <= s.position)
    && (forall i, j | 0 <= i < j < |s.messages| ::
          && s.messages[i].streamVersion < s.messages[j].streamVersion
          && s.messages[i].position < s.messages[j].position)
    && (forall i, j | 0 <= i < j < |s.messages| ::
          s.messages[i].messageId != s.messages[j].messageId)
  }

  /** Every stream is well formed and no stream position is past the head. */
  ghost predicate ValidStore(st: Store) {
    && -1 <= st.head
    && forall sid | sid in st.streams ::
         WellFormed(sid, st.streams[sid]) && st.streams[sid].position <= st.head
  }

  // ---------------------------------------------------------------------
  // Lookups
  // ---------------------------------------------------------------------

  /** The index of the message with version `v`, if it is visible. */
  function IndexOfVersion(msgs: seq<StreamMessage>, v: int): (r: Option<nat>)
    ensures r.Some? ==>
      r.value < |msgs| && msgs[r.value].streamVersion == v &&
      forall i | 0 <= i < r.value :: msgs[i].streamVersion != v
    ensures r.None? ==> forall i | 0 <= i < |msgs| :: msgs[i].streamVersion != v
  {
    if msgs == [] then None
    else if msgs[0].streamVersion == v then Some(0)
    else match IndexOfVersion(msgs[1..], v)
      case None => None
      case Some(i) => Some(i + 1)
  }

  /** The index of the message with id `id`, if it is visible. */
  function IndexOfId(msgs: seq<StreamMessage>, id: Guid): (r: Option<nat>)
    ensures r.Some? ==>
      r.value < |msgs| && msgs[r.value].messageId == id &&
      forall i | 0 <= i < r.value :: msgs[i].messageId != id
    ensures r.None? ==> forall i | 0 <= i < |msgs| :: msgs[i].messageId != id
  {
    if msgs == [] then None
    else if msgs[0].messageId == id then Some(0)
    else match IndexOfId(msgs[1..], id)
      case None => None
      case Some(i) => Some(i + 1)
  }

  // ---------------------------------------------------------------------
  // The append protocol
  // ---------------------------------------------------------------------

  /**
   * The batch is an idempotent replay from version `start`: its ids are,
   * in order, the ids of the visible messages at versions start,
   * start + 1, ... (comparison by id only). The empty batch always is.
   */
  predicate MatchesFrom(msgs: seq<StreamMessage>, start: int, batch: seq<NewMessage>) {
    batch == [] ||
    match IndexOfVersion(msgs, start)
    case None => false
    case Some(j) =>
      j + |batch| <= |msgs| &&
      forall k | 0 <= k < |batch| ::
        msgs[j + k].messageId == batch[k].messageId && msgs[j + k].streamVersion == start + k
  }

  /** The batch may be written: its ids are distinct and none is in the stream. */
  predicate Fresh(msgs: seq<StreamMessage>, batch: seq<NewMessage>) {
    DistinctBatch(batch) &&
    forall k, i | 0 <= k < |batch| && 0 <= i < |msgs| :: batch[k].messageId != msgs[i].messageId
  }

  /** What an append does: write the batch at the tail, recognise a replay, or refuse. */
  datatype Plan = Write | Replay | Conflict

  function WriteIfFresh(s: Stream, batch: seq<NewMessage>): Plan {
    if Fresh(s.messages, batch) then Write else Conflict
  }

  /**
   * The expected-version check. `current` is the stream as stored, or None
   * when it has never been written.
   */
  function PlanAppend(current: Option<Stream>, expected: ExpectedVersion, batch: seq<NewMessage>): Plan
  {
    var s := current.GetOr(Untouched);
    match expected
    case NoStream =>
      if s.version == -1 then WriteIfFresh(s, batch)
      else if MatchesFrom(s.messages, 0, batch) then Replay
      else Conflict
    case EmptyStream =>
      if current.None? then Conflict
      else if s.version == -1 then WriteIfFresh(s, batch)
      else if MatchesFrom(s.messages, 0, batch) then Replay
      else Conflict
    case Exactly(v) =>
      if current.None? || v > s.version then Conflict
      else if v == s.version then WriteIfFresh(s, batch)
      else if MatchesFrom(s.messages, v + 1, batch) then Replay
      else Conflict
    case Any =>
      if current.None? then WriteIfFresh(s, batch)
      else if batch == [] then Replay
      else match IndexOfId(s.messages, batch[0].messageId)
        case Some(i) =>
          if MatchesFrom(s.messages, s.messages[i].streamVersion, batch) then Replay else Conflict
        case None => WriteIfFresh(s, batch)
  }

  /** The batch as committed messages, from the given version and position on. */
  function Committed(sid: StreamId, batch: seq<NewMessage>, firstVersion: int, firstPosition: int)
    : (ms: seq<StreamMessage>)
  {
    seq(|batch|, k requires 0 <= k < |batch| =>
      StreamMessage(sid, batch[k].messageId, firstVersion + k, firstPosition + k,
                    batch[k].messageType, batch[k].payload))
  }

  /** The stream after writing the batch at its tail, the store head being `head`. */
  function Appended(s: Stream, sid: StreamId, batch: seq<NewMessage>, head: int): Stream {
    Stream(s.messages + Committed(sid, batch, s.version + 1, head + 1),
           s.version + |batch|,
           if batch == [] then s.position else head + |batch|)
  }

  function Lookup(st: Store, sid: StreamId): Option<Stream> {
    if sid in st.streams then Some(st.streams[sid]) else None
  }

  /** AppendToStream(streamId, expectedVersion, messages). */
  function Apply(st: Store, sid: StreamId, expected: ExpectedVersion, batch: seq<NewMessage>)
    : AppendOutcome
  {
    var s := Lookup(st, sid).GetOr(Untouched);
    match PlanAppend(Lookup(st, sid), expected, batch)
    case Write =>
      var s' := Appended(s, sid, batch, st.head);
      AppendOutcome(Store(st.streams[sid := s'], st.head + |batch|),
                    Success(AppendResult(s'.version, s'.position)))
    case Replay =>
      AppendOutcome(st, Success(AppendResult(s.version, s.position)))
    case Conflict =>
      AppendOutcome(st, Failure(WrongExpectedVersion(sid, expected)))
  }

  // ---------------------------------------------------------------------
  // Deletion
  // ---------------------------------------------------------------------

  /** The MessageDeleted record appended for a deletion; its own id is `id`. */
  function Tombstone(id: Guid, sid: StreamId, messageId: Guid): NewMessage {
    NewMessage(id, MessageDeletedType, MessageDeleted(sid, messageId))
  }

  /**
   * DeleteMessage(streamId, messageId): remove the message from the
   * stream's visible messages and append a tombstone, with `Any`, to the
   * deleted stream. A missing stream or id changes nothing. `tombstoneId`
   * stands for the fresh Guid the tombstone is given.
   */
  function DeleteMessage(st: Store, sid: StreamId, messageId: Guid, tombstoneId: Guid): Store {
    if sid !in st.streams then st
    else
      var s := st.streams[sid];
      match IndexOfId(s.messages, messageId)
      case None => st
      case Some(i) =>
        Apply(WithoutMessage(st, sid, i), DeletedStreamId, Any, [Tombstone(tombstoneId, sid, messageId)]).store
  }

  /** The store with the i-th visible message of stream `sid` removed; counters untouched. */
  function WithoutMessage(st: Store, sid: StreamId, i: nat): Store
    requires sid in st.streams && i < |st.streams[sid].messages|
  {
    var s := st.streams[sid];
    Store(st.streams[sid := s.(messages := s.messages[..i] + s.messages[i + 1..])], st.head)
  }

  // ---------------------------------------------------------------------
  // Reads
  // ---------------------------------------------------------------------

  datatype PageReadStatus = PageSuccess | StreamNotFound

  datatype ReadStreamPage = ReadStreamPage(
    streamId: StreamId,
    status: PageReadStatus,
    lastStreamVersion: int,
    isEnd: bool,
    messages: seq<StreamMessage>)

  /** The messages with version at least `v`, oldest first. */
  function AtOrAfter(msgs: seq<StreamMessage>, v: int): (r: seq<StreamMessage>)
    ensures |r| <= |msgs|
  {
    if msgs == [] then []
    else if msgs[0].streamVersion >= v then [msgs[0]] + AtOrAfter(msgs[1..], v)
    else AtOrAfter(msgs[1..], v)
  }

  /** The messages with version at most `v`, newest first. */
  function AtOrBeforeNewestFirst(msgs: seq<StreamMessage>, v: int): (r: seq<StreamMessage>)
    ensures |r| <= |msgs|
  {
    if msgs == [] then []
    else
      var last := msgs[|msgs| - 1];
      (if last.streamVersion <= v then [last] else []) + AtOrBeforeNewestFirst(msgs[..|msgs| - 1], v)
  }

  function Min(a: int, b: int): int { if a < b then a else b }

  /** ReadStreamForwards(streamId, fromVersionInclusive, maxCount). */
  function ReadStreamForwards(st: Store, sid: StreamId, fromVersion: int, maxCount: nat): ReadStreamPage {
    if sid !in st.streams then ReadStreamPage(sid, StreamNotFound, -1, true, [])
    else
      var s := st.streams[sid];
      var all := AtOrAfter(s.messages, fromVersion);
      ReadStreamPage(sid, PageSuccess, s.version, |all| <= maxCount, all[..Min(maxCount, |all|)])
  }

  /** ReadStreamBackwards(streamId, fromVersionInclusive or End, maxCount). */
  function ReadStreamBackwards(st: Store, sid: StreamId, fromVersion: int, maxCount: nat): ReadStreamPage {
    if sid !in st.streams then ReadStreamPage(sid, StreamNotFound, -1, true, [])
    else
      var s := st.streams[sid];
      var all := AtOrBeforeNewestFirst(s.messages, if fromVersion == EndVersion then s.version else fromVersion);
      ReadStreamPage(sid, PageSuccess, s.version, |all| <= maxCount, all[..Min(maxCount, |all|)])
  }

  /** ReadHeadPosition(). */
  function ReadHeadPosition(st: Store): int {
    st.head
  }
}
