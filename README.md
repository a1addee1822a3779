# SqlStreamStore core, modelled in Dafny

This project models four parts of SqlStreamStore (formerly Cedar.EventStore):

- **The message constructor.** `NewStreamEvent` checks its arguments and stores them.
- **The stream-store protocol.** This covers appending to a stream with an expected version
  (`Any`, `NoStream`, `EmptyStream` or an explicit version), replaying an append idempotently,
  deleting a message, and reading a stream forwards and backwards. The acceptance tests for
  append and delete pin this protocol down.
- **The stream subscription.** Its pull-and-push loop resolves where to start, pulls pages
  from the store and pushes their messages to a handler. It also reports the drop reason once,
  and `Dispose` is idempotent.
- **The HAL resource reader.** The HTTP client uses it to turn a JSON token stream into a
  resource with state properties, links and embedded resources.

Each part is written in two layers:

- **A specification layer** of functions on values. The laws are proved about it:
  - `Streams` with `StreamStoreLaws`;
  - `Subscriptions` with `SubscriptionLaws`;
  - `HalReader` with `HalReaderLaws`.
- **An imperative layer** that does the same work the way the source does:
  - `InMemoryStreamStore.StreamStore` is a class with loops;
  - `StreamSubscriptions.StreamSubscription` is a class whose methods update its fields;
  - `HalResourceJsonReader` holds methods that move a `JsonTokens.JsonReader` cursor.

Each method ensures that its result and new state are what the specification function gives
for the old state. So the laws carry over to the code.

The stream store's implementation is not part of this model. The append and delete protocol is
reconstructed from the acceptance tests that every store must pass:

- A stream keeps its last assigned version and position apart from the messages it shows.
  That way a deletion never renumbers anything.
- A batch with a repeated id is never written.
- An append that repeats a committed run of ids returns the stream's current version and
  position and changes nothing.

Some rules are choices of this model, because the tests do not decide them:

- `EmptyStream` behaves as an explicit version of -1:
  - on a stream that was never written it is refused;
  - on a stream created empty it writes;
  - on a stream with messages it is a replay check from version 0.

  Only the positive case is tested.
- `Any` anchors its replay check at the committed version of the batch's first id. The other
  ids must then follow in order from that version.
- `Any` with a first id the stream has not seen writes only when no other id of the batch is
  committed either; otherwise it is refused.
- Freshness is checked against the messages a stream still shows. So the id of a deleted
  message may be appended again.

The JSON reader is a sequence of tokens and a cursor:

- The cursor is -1 before the first read and `|tokens|` after the last.
- Loading a value (the JSON library's `JToken.LoadAsync`) is modelled as consuming one balanced
  value and leaving the cursor on its last token.
- `JsonTokens.LoadConsumesOneValue` proves that this consumes exactly the tokens a JSON writer
  emits for one value.

`HalReader.Convention` selects where the readers leave the cursor:

- `AsWritten` is the behaviour of the source. The imperative reader in `HalResourceJsonReader`
  is proved against it.
- `EndOnLast` is the corrected behaviour described under Findings.

## Model

| member | source | states |
|---|---|---|
| NewStreamEvents.CheckNotNullOrEmpty | src/Cedar.EventStore/NewStreamEvent.cs:16-17 | a string argument passes exactly when it is neither null nor empty; null and empty raise different argument errors naming the parameter |
| NewStreamEvents.Create | src/Cedar.EventStore/NewStreamEvent.cs:13-23 | construction succeeds exactly when the id is not the empty Guid and type and data are non-empty; the first failing check (id, then type, then data) decides the error; a built event keeps its arguments and a null metadata becomes "" |
| NewStreamEvents.CreateRoundTrip | src/Cedar.EventStore/NewStreamEvent.cs:19-22 | every valid event is what the constructor builds from its own fields |
| NewStreamEvents.NullMetadataIsEmpty | src/Cedar.EventStore/NewStreamEvent.cs:13-22 | a null metadata argument and an empty one build the same event |
| Streams.ToMessages | tests/SqlStreamStore.AcceptanceTests/AcceptanceTests.AppendStream.cs:266-279 | an append writes one message per event, keeping each event's id, in order |
| Streams.PlanAppend | tests/SqlStreamStore.AcceptanceTests/AcceptanceTests.AppendStream.cs:12-677 | no contract of its own: the expected-version decision (write, replay or refuse). The conflict, replay and fresh-append lemmas of StreamStoreLaws state what it decides |
| Streams.Apply | tests/SqlStreamStore.AcceptanceTests/AcceptanceTests.AppendStream.cs:12-725 | no contract of its own: AppendToStream on a store value. Stated by AppendTouchesOnlyItsStream, ApplyPreservesValid and ReplayIsIdempotent |
| Streams.DeleteMessage | tests/SqlStreamStore.AcceptanceTests/AcceptanceTests.DeleteEvent.cs:14-128 | no contract of its own: DeleteMessage on a store value. Stated by DeleteMissingIsNoOp, DeleteRemovesExactlyThatMessage, DeleteAppendsTombstone and DeletePreservesValid |
| Streams.ReadStreamForwards | tests/SqlStreamStore.AcceptanceTests/AcceptanceTests.DeleteEvent.cs:83-128 | no contract of its own: a page of at most maxCount messages from a version on, oldest first, or StreamNotFound. Its contents are stated by AtOrAfterMembers |
| Streams.ReadStreamBackwards | tests/SqlStreamStore.AcceptanceTests/AcceptanceTests.DeleteEvent.cs:30-45 | no contract of its own: a page of at most maxCount messages up to a version (or the end), newest first. Its contents are stated by AtOrBeforeMembers |
| StreamStoreLaws.ApplyPreservesValid | tests/SqlStreamStore.AcceptanceTests/AcceptanceTests.AppendStream.cs:118-263 | every append, accepted or refused, keeps the store invariant: per stream, versions and positions strictly increase and stay within the stream's counters, and no id occurs twice |
| StreamStoreLaws.DeletePreservesValid | tests/SqlStreamStore.AcceptanceTests/AcceptanceTests.DeleteEvent.cs:14-45 | every deletion keeps the store invariant |
| StreamStoreLaws.MatchesFromMeansCommittedAt | tests/SqlStreamStore.AcceptanceTests/AcceptanceTests.AppendStream.cs:160-247 | the replay test holds exactly when, for every k, the batch's k-th id is the message committed at the start version plus k (both directions) |
| StreamStoreLaws.AtOrAfterMembers | tests/SqlStreamStore.AcceptanceTests/AcceptanceTests.DeleteEvent.cs:83-97 | a forward read from v returns exactly the visible messages whose version is at least v |
| StreamStoreLaws.AtOrBeforeMembers | tests/SqlStreamStore.AcceptanceTests/AcceptanceTests.DeleteEvent.cs:30-45 | a backward read from v returns exactly the visible messages whose version is at most v |
| StreamStoreLaws.AppendToNewStream | tests/SqlStreamStore.AcceptanceTests/AcceptanceTests.AppendStream.cs:266-294 | NoStream or Any on an unwritten stream with distinct ids gives versions 0..N-1 and the next N positions; the result is CurrentVersion N-1; the read back is Success with those messages |
| StreamStoreLaws.AppendAtExpectedVersion | tests/SqlStreamStore.AcceptanceTests/AcceptanceTests.AppendStream.cs:131-157 | an explicit version equal to the current one, with fresh distinct ids, keeps the old messages and adds the batch at versions V+1..V+N; the result is CurrentVersion V+N at a later position |
| StreamStoreLaws.SuccessiveAppendsAdvancePosition | tests/SqlStreamStore.AcceptanceTests/AcceptanceTests.AppendStream.cs:644-663 | across two writing appends, to one stream or to two, the position grows by at least the second batch's size |
| StreamStoreLaws.AnyFreshAppendsAtTail | tests/SqlStreamStore.AcceptanceTests/AcceptanceTests.AppendStream.cs:499-578 | Any with ids the stream has not seen appends them at the tail with the next versions and positions |
| StreamStoreLaws.EmptyAppendCreatesStream | tests/SqlStreamStore.AcceptanceTests/AcceptanceTests.AppendStream.cs:296-317 | an empty NoStream or Any append creates a stream that reads as Success with no messages, returns CurrentVersion -1, and a later EmptyStream append numbers from 0 |
| StreamStoreLaws.EmptyAppendAtCurrentVersion | tests/SqlStreamStore.AcceptanceTests/AcceptanceTests.AppendStream.cs:593-605 | an empty append at the current version returns that version and position and changes nothing |
| StreamStoreLaws.ReplayIsIdempotent | tests/SqlStreamStore.AcceptanceTests/AcceptanceTests.AppendStream.cs:29-101 | after a successful append, repeating it, or any leading part of it, with the same expected version changes nothing and returns the same result |
| StreamStoreLaws.ReplayPrefix | tests/SqlStreamStore.AcceptanceTests/AcceptanceTests.AppendStream.cs:205-247 | a leading part of a recognised replay is a recognised replay |
| StreamStoreLaws.AppendTouchesOnlyItsStream | tests/SqlStreamStore.AcceptanceTests/AcceptanceTests.AppendStream.cs:644-663 | an append changes no other stream, only adds at the tail, never moves the head back, and reports the stream's counters as they then stand; a refused append changes nothing and reports WrongExpectedVersion |
| StreamStoreLaws.RepeatedIdsNeverWritten | tests/SqlStreamStore.AcceptanceTests/AcceptanceTests.AppendStream.cs:617-629 | the model's rule that keeps ids unique within a stream: a batch that repeats an id within itself is never written, under any expected version (the test itself is stated by ExactlyCurrentCommittedIdConflicts) |
| StreamStoreLaws.ExactlyCurrentCommittedIdConflicts | tests/SqlStreamStore.AcceptanceTests/AcceptanceTests.AppendStream.cs:617-629 | an explicit expected version equal to the current one is refused with WrongExpectedVersion, and the store left unchanged, when any id of the batch is already committed in the stream |
| StreamStoreLaws.ExplicitVersionConflicts | tests/SqlStreamStore.AcceptanceTests/AcceptanceTests.AppendStream.cs:117-129 | an explicit version other than the current one is refused when any id is not the one committed at the version it would replay |
| StreamStoreLaws.ExplicitVersionReplay | tests/SqlStreamStore.AcceptanceTests/AcceptanceTests.AppendStream.cs:159-247 | an explicit version below the current one, with every id the one committed at its place from the next version, is an idempotent replay: nothing changes and the stream's current version and position come back, whatever expected version first wrote those messages |
| StreamStoreLaws.NoStreamConflicts | tests/SqlStreamStore.AcceptanceTests/AcceptanceTests.AppendStream.cs:12-27 | NoStream on a written stream is refused when any id is not the one committed at its place from version 0 |
| StreamStoreLaws.AnyConflicts | tests/SqlStreamStore.AcceptanceTests/AcceptanceTests.AppendStream.cs:441-453 | Any whose first id is committed is refused when a later id is not the one committed at its place (out of order, or followed by new ids) |
| StreamStoreLaws.AnyCommittedThenNewConflicts | tests/SqlStreamStore.AcceptanceTests/AcceptanceTests.AppendStream.cs:580-591 | Any whose first id is committed is refused, and the store unchanged, when a later id is one the stream has never shown (as [2,3,4] after [1,2,3]) |
| StreamStoreLaws.AnyNewThenCommittedConflicts | tests/SqlStreamStore.AcceptanceTests/AcceptanceTests.AppendStream.cs:499-514 | the model's rule for Any whose first id is new, the complement of the all-new batch written at 499-514: a batch that goes on to an id already committed is refused and the store is unchanged, so an id never appears twice in a stream (no test covers this mix; the test at 580-591 starts with a committed id and is stated by AnyCommittedThenNewConflicts) |
| StreamStoreLaws.AnyCommittedRunIsReplay | tests/SqlStreamStore.AcceptanceTests/AcceptanceTests.AppendStream.cs:319-497 | Any with every id committed in order from the first one's version changes nothing and returns the stream's current version and position |
| StreamStoreLaws.DeleteMissingIsNoOp | tests/SqlStreamStore.AcceptanceTests/AcceptanceTests.DeleteEvent.cs:48-61 | deleting an id the stream does not show, or from a missing stream, changes nothing |
| StreamStoreLaws.DeleteRemovesExactlyThatMessage | tests/SqlStreamStore.AcceptanceTests/AcceptanceTests.DeleteEvent.cs:14-27 | deleting a visible message removes exactly it, keeps the stream's version and position, and leaves every other stream except the deleted stream alone |
| StreamStoreLaws.DeleteAppendsTombstone | tests/SqlStreamStore.AcceptanceTests/AcceptanceTests.DeleteEvent.cs:30-45 | a deletion appends one MessageDeleted record, naming the stream and the id, to the deleted stream; it is the newest message read backwards from the end |
| StreamStoreLaws.AppendAfterDeleteContinuesVersions | tests/SqlStreamStore.AcceptanceTests/AcceptanceTests.DeleteEvent.cs:64-80 | after a deletion, an append at the unchanged version succeeds with CurrentVersion v+N; the stream then holds the surviving messages followed by the new ones at versions v+1..v+N, so the deleted version is never reused |
| InMemoryStreamStore.FindVersion | tests/SqlStreamStore.AcceptanceTests/AcceptanceTests.AppendStream.cs:159-247 | the search loop finds the first index holding the version, as IndexOfVersion |
| InMemoryStreamStore.FindId | tests/SqlStreamStore.AcceptanceTests/AcceptanceTests.AppendStream.cs:319-497 | the search loop finds the first index holding the id, as IndexOfId |
| InMemoryStreamStore.CheckMatchesFrom | tests/SqlStreamStore.AcceptanceTests/AcceptanceTests.AppendStream.cs:159-247 | the loop decides the replay test MatchesFrom |
| InMemoryStreamStore.CheckFresh | tests/SqlStreamStore.AcceptanceTests/AcceptanceTests.AppendStream.cs:499-591 | the loop decides that the ids are distinct and none is committed |
| InMemoryStreamStore.DecidePlan | tests/SqlStreamStore.AcceptanceTests/AcceptanceTests.AppendStream.cs:12-677 | the expected-version decision (write, replay or conflict) is PlanAppend |
| InMemoryStreamStore.OldestFirstFrom | tests/SqlStreamStore.AcceptanceTests/AcceptanceTests.DeleteEvent.cs:83-128 | the loop collects the messages at or after a version, oldest first |
| InMemoryStreamStore.NewestFirstUpTo | tests/SqlStreamStore.AcceptanceTests/AcceptanceTests.DeleteEvent.cs:30-45 | the loop collects the messages at or before a version, newest first |
| InMemoryStreamStore.CommitBatch | tests/SqlStreamStore.AcceptanceTests/AcceptanceTests.AppendStream.cs:132-157 | the loop appends the batch with consecutive versions and positions |
| InMemoryStreamStore.StreamStore.AppendToStream | tests/SqlStreamStore.AcceptanceTests/AcceptanceTests.AppendStream.cs:12-725 | the store's new state and result are those of Apply on the old state, and the invariant is kept |
| InMemoryStreamStore.StreamStore.AppendMessages | tests/SqlStreamStore.AcceptanceTests/AcceptanceTests.AppendStream.cs:12-725 | as AppendToStream, for messages already converted |
| InMemoryStreamStore.StreamStore.DeleteMessage | tests/SqlStreamStore.AcceptanceTests/AcceptanceTests.DeleteEvent.cs:14-128 | the new state is the specification's DeleteMessage of the old one, and the invariant is kept |
| InMemoryStreamStore.StreamStore.ReadStreamForwards | tests/SqlStreamStore.AcceptanceTests/AcceptanceTests.DeleteEvent.cs:83-128 | the page returned is the specification's forward read |
| InMemoryStreamStore.StreamStore.ReadStreamBackwards | tests/SqlStreamStore.AcceptanceTests/AcceptanceTests.DeleteEvent.cs:30-45 | the page returned is the specification's backward read |
| InMemoryStreamStore.StreamStore.ReadHeadPosition | tests/SqlStreamStore.AcceptanceTests/AcceptanceTests.AppendStream.cs:644-663 | the head position returned is the store's |
| Subscriptions.ClampPageSize | src/SqlStreamStore/Subscriptions/StreamSubscription.cs:84-88 | the page size is at least 1; a positive value is kept and any other becomes 1 |
| Subscriptions.ReadFailureReason | src/SqlStreamStore/Subscriptions/StreamSubscription.cs:166-206 | a read failure means Disposed exactly for disposal or cancellation and StreamStoreError otherwise, never SubscriberError |
| Subscriptions.NotifyDropped | src/SqlStreamStore/Subscriptions/StreamSubscription.cs:229-247 | no contract of its own: only the first drop report is recorded. Stated by NotifyDroppedOnce and StepsKeepLatch |
| Subscriptions.Dispose | src/SqlStreamStore/Subscriptions/StreamSubscription.cs:91-101 | no contract of its own. Stated by DisposeIsIdempotent and DisposedLoopStops |
| Subscriptions.Initialize | src/SqlStreamStore/Subscriptions/StreamSubscription.cs:148-182 | no contract of its own: start after the newest message, or drop with the read's reason. Stated by StartFromEndOfStream, StartFromEndOfEmptyStream and StartReadFailure |
| Subscriptions.Start | src/SqlStreamStore/Subscriptions/StreamSubscription.cs:109-124 | no contract of its own: resolve where reading starts. Stated by StartFromVersion, StartFromEndOfStream and StartKeepsOrder |
| Subscriptions.Push | src/SqlStreamStore/Subscriptions/StreamSubscription.cs:209-213 | no contract of its own: move the next and last versions to the message and hand it over. Stated through PushAllKeepsFields |
| Subscriptions.PushAll | src/SqlStreamStore/Subscriptions/StreamSubscription.cs:133-136 | no contract of its own: push a page in order. Stated by PushAllKeepsFields and PushAllKeepsOrder |
| Subscriptions.Iterate | src/SqlStreamStore/Subscriptions/StreamSubscription.cs:126-145 | no contract of its own: one pass of the loop. Stated by IterateDeliversPage, IterateReadFailure, IterateHandlerFailure and IterateKeepsOrder |
| Subscriptions.PullPage | src/SqlStreamStore/Subscriptions/StreamSubscription.cs:188-189 | no contract of its own: the forward read from the next version with the page size. Stated by PullPageAscending |
| SubscriptionLaws.NotifyDroppedOnce | src/SqlStreamStore/Subscriptions/StreamSubscription.cs:229-234 | the first drop report is recorded, and later ones change nothing |
| SubscriptionLaws.StepsKeepLatch | src/SqlStreamStore/Subscriptions/StreamSubscription.cs:229-247 | every operation keeps the latch, so the dropped callback runs at most once |
| SubscriptionLaws.DisposeIsIdempotent | src/SqlStreamStore/Subscriptions/StreamSubscription.cs:91-101 | a second Dispose changes nothing; the first requests disposal and reports Disposed unless a drop was already reported |
| SubscriptionLaws.DisposedLoopStops | src/SqlStreamStore/Subscriptions/StreamSubscription.cs:126 | after Dispose the loop stops without reading or pushing |
| SubscriptionLaws.StartFromVersion | src/SqlStreamStore/Subscriptions/StreamSubscription.cs:111-122 | with no version, reading starts at 0; after an explicit version V other than the end, at V+1; no drop is reported |
| SubscriptionLaws.InitPageIsNewest | src/SqlStreamStore/Subscriptions/StreamSubscription.cs:152-161 | a backwards read of one message from the end returns the stream's newest message |
| SubscriptionLaws.StartFromEndOfStream | src/SqlStreamStore/Subscriptions/StreamSubscription.cs:115-118 | from the end, reading starts just after the newest message, above every visible version |
| SubscriptionLaws.StartFromEndOfEmptyStream | src/SqlStreamStore/Subscriptions/StreamSubscription.cs:159-181 | from the end of a missing or empty stream the first-message read fails; the subscription drops with StreamStoreError and the loop never runs |
| SubscriptionLaws.StartReadFailure | src/SqlStreamStore/Subscriptions/StreamSubscription.cs:166-181 | a failing start read is sorted into its drop reason, and the loop never runs |
| SubscriptionLaws.PushAllKeepsOrder | src/SqlStreamStore/Subscriptions/StreamSubscription.cs:133-136 | pushing an ascending page from the next version keeps delivery in version order |
| SubscriptionLaws.PullPageAscending | src/SqlStreamStore/Subscriptions/StreamSubscription.cs:188-189 | a pulled page has at most the page size of messages, ascending from the next version |
| SubscriptionLaws.IterateDeliversPage | src/SqlStreamStore/Subscriptions/StreamSubscription.cs:126-145 | a good read with a handler that never throws delivers exactly the pulled page in order, moves the next version past it, and runs the caught-up callback once per iteration |
| SubscriptionLaws.IterateReadFailure | src/SqlStreamStore/Subscriptions/StreamSubscription.cs:184-206 | a failing read ends the loop with its drop reason and pushes nothing |
| SubscriptionLaws.IterateHandlerFailure | src/SqlStreamStore/Subscriptions/StreamSubscription.cs:209-226 | a handler that throws on the i-th message has received messages 0..i; next and last version are past and at it; the drop is SubscriberError; the loop ends without the caught-up callback |
| SubscriptionLaws.IterateKeepsOrder | src/SqlStreamStore/Subscriptions/StreamSubscription.cs:126-145 | whatever the read or the handler does, an iteration keeps delivery in version order, so no message is delivered twice |
| SubscriptionLaws.StartKeepsOrder | src/SqlStreamStore/Subscriptions/StreamSubscription.cs:109-124 | resolving the start keeps delivery in order |
| StreamSubscriptions.StreamSubscription.constructor | src/SqlStreamStore/Subscriptions/StreamSubscription.cs:39-69 | the new subscription's state is Start of the initial state, with the stream's first-message read |
| StreamSubscriptions.StreamSubscription.SetMaxCountPerRead | src/SqlStreamStore/Subscriptions/StreamSubscription.cs:84-88 | the page size becomes ClampPageSize of the value |
| StreamSubscriptions.StreamSubscription.NotifySubscriptionDropped | src/SqlStreamStore/Subscriptions/StreamSubscription.cs:229-247 | the state becomes NotifyDropped of the old one |
| StreamSubscriptions.StreamSubscription.Dispose | src/SqlStreamStore/Subscriptions/StreamSubscription.cs:91-101 | the state becomes Dispose of the old one |
| StreamSubscriptions.StreamSubscription.Initialize | src/SqlStreamStore/Subscriptions/StreamSubscription.cs:148-182 | the state becomes Initialize of the old one with the backwards read's outcome; the result says whether a message was found |
| StreamSubscriptions.StreamSubscription.Pull | src/SqlStreamStore/Subscriptions/StreamSubscription.cs:184-207 | a good read returns the pulled page and changes nothing; a failure returns none and reports its drop reason |
| StreamSubscriptions.StreamSubscription.Push | src/SqlStreamStore/Subscriptions/StreamSubscription.cs:209-227 | the message is recorded and the versions advance; a throwing handler also drops with SubscriberError |
| StreamSubscriptions.StreamSubscription.PushPage | src/SqlStreamStore/Subscriptions/StreamSubscription.cs:133-136 | the loop completes exactly when the handler never throws on the page, and then the state is PushAll of the page; otherwise it stops at the throwing message |
| StreamSubscriptions.StreamSubscription.Iterate | src/SqlStreamStore/Subscriptions/StreamSubscription.cs:126-145 | one pass of the loop takes the state to the specification's Iterate with the store's page |
| JsonTokens.JsonReader.ReadAsync | src/SqlStreamStore.Http/HalClient/Serialization/HalResourceJsonReader.cs:26 | the cursor moves one token on; the result is whether a token is under it |
| JsonTokens.JsonReader.Load | src/SqlStreamStore.Http/HalClient/Serialization/HalResourceJsonReader.cs:43 | loading succeeds exactly when one balanced value starts at the cursor; it returns that value's tokens and leaves the cursor on its last token |
| JsonTokens.LoadConsumesOneValue | src/SqlStreamStore.Http/HalClient/Serialization/HalResourceJsonReader.cs:43 | wherever a written JSON value occurs, loading from its first token ends exactly on its last |
| JsonTokens.CloseSkipsValue | src/SqlStreamStore.Http/HalClient/Serialization/HalResourceJsonReader.cs:104-108 | scanning past a whole value inside an open container neither closes it nor changes the depth |
| JsonTokens.ElementsOfWrittenArray | src/SqlStreamStore.Http/HalClient/Serialization/HalResourceJsonReader.cs:108 | splitting a loaded array into elements recovers the values a writer wrote |
| HalReader.PropertyValue | src/SqlStreamStore.Http/HalClient/Serialization/HalResourceJsonReader.cs:45-47 | a property loads as null exactly when its value is JSON null |
| HalReader.ReadNextToken | src/SqlStreamStore.Http/HalClient/Serialization/HalResourceJsonReader.cs:188-192 | reading on succeeds exactly when another token exists, and otherwise throws unexpected end |
| HalReader.SkipComments | src/SqlStreamStore.Http/HalClient/Serialization/HalResourceJsonReader.cs:181-186 | only comments are passed over: on success the cursor is on the first token at or after the start that is not a comment; the read throws unexpected end exactly when only comments remain |
| HalReader.OpenObject | src/SqlStreamStore.Http/HalClient/Serialization/HalResourceJsonReader.cs:21-22 | after only comments are skipped, success lands on a StartObject; when the first token that is not a comment is anything else, the read throws UnexpectedToken naming it; otherwise it throws unexpected end |
| HalReader.LinksLoop | src/SqlStreamStore.Http/HalClient/Serialization/HalResourceJsonReader.cs:75-93 | a successful `_links` loop ends on an EndObject |
| HalReader.ArrayLinks | src/SqlStreamStore.Http/HalClient/Serialization/HalResourceJsonReader.cs:107-108 | an array of links gives one link per element, in order, none carrying the rel |
| HalReader.ReadResource | src/SqlStreamStore.Http/HalClient/Serialization/HalResourceJsonReader.cs:12-64 | cursor bounds only: on success the cursor ends after where it started. What is read is stated by DocumentIsRead and UnclosedResourceIsKept |
| HalReader.ResourceLoop | src/SqlStreamStore.Http/HalClient/Serialization/HalResourceJsonReader.cs:26-63 | cursor bounds only: on success the cursor moves on, or the tokens ran out. What is read is stated by PropertiesAreStored, LinksAreRead and DocumentIsRead |
| HalReader.ReadLinks | src/SqlStreamStore.Http/HalClient/Serialization/HalResourceJsonReader.cs:66-94 | cursor bounds only: on success the cursor ends on a token after the start. What is read is stated by LinksAreRead |
| HalReader.RelLinks | src/SqlStreamStore.Http/HalClient/Serialization/HalResourceJsonReader.cs:96-112 | cursor bounds only. What is read is stated by RelLinksAreRead |
| HalReader.ReadEmbedded | src/SqlStreamStore.Http/HalClient/Serialization/HalResourceJsonReader.cs:114-143 | cursor bounds only. What is read, with EndOnLast, is stated by ReadEmbeddedIsRead; as written, by TwoEmbeddedRelsAsWritten |
| HalReader.EmbeddedLoop | src/SqlStreamStore.Http/HalClient/Serialization/HalResourceJsonReader.cs:123-142 | cursor bounds only. What is read is stated by ReadEmbeddedIsRead |
| HalReader.EmbeddedRel | src/SqlStreamStore.Http/HalClient/Serialization/HalResourceJsonReader.cs:145-179 | cursor bounds only. What is read is stated by ReadEmbeddedIsRead |
| HalReader.EmbeddedArray | src/SqlStreamStore.Http/HalClient/Serialization/HalResourceJsonReader.cs:158-175 | cursor bounds only. What is read is stated by ReadEmbeddedIsRead |
| HalReader.Read | src/SqlStreamStore.Http/HalClient/Serialization/HalResourceJsonReader.cs:12-19 | no contract of its own: ReadResource on a reader that has not read yet. Stated by ReadWrittenDocument |
| HalReaderLaws.PropertiesAreStored | src/SqlStreamStore.Http/HalClient/Serialization/HalResourceJsonReader.cs:42-49 | the resource loop stores each plain property it meets under its name, in order, and moves past its value |
| HalReaderLaws.RelLinksAreRead | src/SqlStreamStore.Http/HalClient/Serialization/HalResourceJsonReader.cs:96-112 | a single link object becomes one link carrying the rel; an array becomes one link per element |
| HalReaderLaws.LinksAreRead | src/SqlStreamStore.Http/HalClient/Serialization/HalResourceJsonReader.cs:36-38 | a `_links` property sets the resource's links to the links of all its rels, in order |
| HalReaderLaws.ReadEmbeddedIsRead | src/SqlStreamStore.Http/HalClient/Serialization/HalResourceJsonReader.cs:114-179 | when every reader ends on its value's last token, a written `_embedded` object reads as its resources, each tagged with its rel |
| HalReaderLaws.DocumentIsRead | src/SqlStreamStore.Http/HalClient/Serialization/HalResourceJsonReader.cs:12-64 | a well-formed document, wherever it occurs, reads as its meaning: always with EndOnLast, and as written when it embeds nothing |
| HalReaderLaws.ReadWrittenDocument | src/SqlStreamStore.Http/HalClient/Serialization/HalResourceJsonReader.cs:12-64 | round trip: reading what a HAL writer wrote gives back the document's meaning with EndOnLast; as written, only for documents that embed nothing |
| HalReaderLaws.UnclosedResourceIsKept | src/SqlStreamStore.Http/HalClient/Serialization/HalResourceJsonReader.cs:63 | when the tokens end before the resource's EndObject, the resource read so far is the result |
| HalReaderLaws.TwoEmbeddedRelsAsWritten | src/SqlStreamStore.Http/HalClient/Serialization/HalResourceJsonReader.cs:134-136 | as written, `{"_embedded":{"a":{},"b":{}}}` throws on the StartObject of "b"; with EndOnLast it is read back |
| HalReaderLaws.PropertyAfterEmbeddedAsWritten | src/SqlStreamStore.Http/HalClient/Serialization/HalResourceJsonReader.cs:39-41 | as written, a property after `_embedded` loses its name and its value is an unexpected token; with EndOnLast it is stored |
| HalResourceJsonReader.ReadNextToken | src/SqlStreamStore.Http/HalClient/Serialization/HalResourceJsonReader.cs:188-192 | the method agrees with HalReader.ReadNextToken on error and cursor |
| HalResourceJsonReader.SkipComments | src/SqlStreamStore.Http/HalClient/Serialization/HalResourceJsonReader.cs:181-186 | the loop agrees with HalReader.SkipComments on error and cursor |
| HalResourceJsonReader.AssertNextTokenIsStartObject | src/SqlStreamStore.Http/HalClient/Serialization/HalResourceJsonReader.cs:194-198 | there is no error exactly when the current token is a StartObject; otherwise the error names that token |
| HalResourceJsonReader.OpenObject | src/SqlStreamStore.Http/HalClient/Serialization/HalResourceJsonReader.cs:21-22 | skipping comments and then the StartObject check agree with HalReader.OpenObject |
| HalResourceJsonReader.ReadResource | src/SqlStreamStore.Http/HalClient/Serialization/HalResourceJsonReader.cs:12-64 | the result and the final cursor are HalReader.ReadResource's, as written |
| HalResourceJsonReader.ReadProperty | src/SqlStreamStore.Http/HalClient/Serialization/HalResourceJsonReader.cs:30-52 | handling one property continues the resource loop exactly as HalReader.ResourceLoop does |
| HalResourceJsonReader.ReadLinks | src/SqlStreamStore.Http/HalClient/Serialization/HalResourceJsonReader.cs:66-94 | the `_links` reader's result and cursor are HalReader.ReadLinks' |
| HalResourceJsonReader.ReadRelLinks | src/SqlStreamStore.Http/HalClient/Serialization/HalResourceJsonReader.cs:96-112 | the per-rel links reader's result and cursor are HalReader.RelLinks' |
| HalResourceJsonReader.ReadEmbedded | src/SqlStreamStore.Http/HalClient/Serialization/HalResourceJsonReader.cs:114-143 | the `_embedded` reader's result and cursor are HalReader.ReadEmbedded's, as written |
| HalResourceJsonReader.ReadRelEmbedded | src/SqlStreamStore.Http/HalClient/Serialization/HalResourceJsonReader.cs:145-179 | the per-rel embedded reader, with its array loop, agrees with HalReader.EmbeddedRel, as written |

## Left out

- Persistence, the SQL and HTTP transports, and the global `$all` stream are not modelled. The store is an in-memory value whose per-stream behaviour follows the acceptance tests.
- The store's implementation is not part of this model, so the append rules are reconstructed from the append and delete acceptance tests.
- Concurrency is not modelled:
  - the subscription's background task and the store's append notification are left out;
  - the 100 ms delay is left out;
  - the auto-reset event is left out;
  - `Started` is reduced to a flag;
  - the atomic compare-exchange of the drop latch becomes a plain check.
- Logging is left out. The subscription's generated random name, the JSON-prefetch flag passed through to reads and cancellation tokens are also left out.
- Exceptions thrown by the store's reads and by the message handler become parameters of the operations: a `ReadException`, or the index at which the handler throws.
- The tombstone's id is a parameter, where the source uses a fresh random Guid. Its JSON body is the value `MessageDeleted(stream, id)`, not a serialized document.
- `HalClientDeleteExtensions` is not part of this model; it is an HTTP call.
- The JSON library's internals are left out:
  - a JSON document is already a token sequence;
  - `JToken`/`JObject`/`JArray.LoadAsync` is "consume one balanced value";
  - `ToObject<Link>` keeps the link's tokens instead of binding its fields.
- HalReader.ReadResource: its own ensures state only cursor bounds. What it reads is stated by the HalReaderLaws lemmas named in its row.
- HalReader.ResourceLoop: its own ensures state only cursor bounds. What it reads is stated by the HalReaderLaws lemmas named in its row.
- HalReader.ReadLinks: its own ensures state only cursor bounds. What it reads is stated by the HalReaderLaws lemmas named in its row.
- HalReader.RelLinks: its own ensures state only cursor bounds. What it reads is stated by the HalReaderLaws lemmas named in its row.
- HalReader.ReadEmbedded: its own ensures state only cursor bounds. What it reads is stated by the HalReaderLaws lemmas named in its row.
- HalReader.EmbeddedLoop: its own ensures state only cursor bounds. What it reads is stated by the HalReaderLaws lemmas named in its row.
- HalReader.EmbeddedRel: its own ensures state only cursor bounds. What it reads is stated by the HalReaderLaws lemmas named in its row.
- HalReader.EmbeddedArray: its own ensures state only cursor bounds. What it reads is stated by the HalReaderLaws lemmas named in its row.
- HalReaderLaws.ReadWrittenDocument: as written, the round trip is proved only for documents that embed no resources, because nested `_embedded` objects are misread (see Findings).

## Findings

| source | as written | input that shows it | evidently intended | confidence | as-written member | corrected member |
|---|---|---|---|---|---|---|
| src/SqlStreamStore.Http/HalClient/Serialization/HalResourceJsonReader.cs:53-55, 134-136, 172 | on its EndObject, a resource reader reads one more token (so does the `_embedded` reader, and the array reader after its EndArray), and the enclosing loop then reads again before looking; the token after an embedded resource or after `_embedded` is skipped | `{"_embedded":{"a":{},"b":{}}}`: the property name "b" is skipped and the StartObject of "b" throws "Unexpected token"; likewise `{"_embedded":{},"a":1}` throws on `1` | every reader leaves the cursor on its value's last token, as the link readers and loaded values do, so any document a HAL writer emits is read back | not executed | HalReaderLaws.TwoEmbeddedRelsAsWritten | HalReaderLaws.ReadWrittenDocument |
