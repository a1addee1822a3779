/**
 * The message record that callers hand to an append: a caller-chosen
 * identifier, a type, a JSON body and optional JSON metadata. Construction
 * validates its arguments; the fields are read-only afterwards, which a
 * datatype value gives for free.
 */
module NewStreamEvents {
  import opened Wrappers

  /** A 128-bit identifier; the all-zero value is the "empty" Guid. */
  type Guid = x: int | 0 <= x < 0x1_0000_0000_0000_0000_0000_0000_0000_0000

  const EmptyGuid: Guid := 0

  /** The argument exceptions thrown by the guard clauses, with the parameter name. */
  datatype ArgumentError =
    | ArgumentEmpty(paramName: string)   // ArgumentException: value is empty
    | ArgumentNull(paramName: string)    // ArgumentNullException: value is null

  datatype NewStreamEvent = NewStreamEvent(
    jsonData: string,
    eventId: Guid,
    eventType: string,
    jsonMetadata: string)

  /** A string argument that is neither null nor empty. */
  predicate IsNotNullOrEmpty(s: Option<string>) {
    s.Some? && s.value != ""
  }

  /** What every successfully constructed event satisfies. */
  predicate ValidEvent(e: NewStreamEvent) {
    e.eventId != EmptyGuid && e.eventType != "" && e.jsonData != ""
  }

  /** The guard for a string argument: null and empty are told apart. */
  function CheckNotNullOrEmpty(s: Option<string>, paramName: string): (r: Option<ArgumentError>)
    ensures r.None? <==> IsNotNullOrEmpty(s)
    ensures s.None? ==> r == Some(ArgumentNull(paramName))
    ensures s == Some("") ==> r == Some(ArgumentEmpty(paramName))
  {
    match s
    case None => Some(ArgumentNull(paramName))
    case Some(v) => if v == "" then Some(ArgumentEmpty(paramName)) else None
  }

  /**
   * The constructor. The checks run in source order (event id, then type,
   * then data), so the first violated one decides the error; a null
   * metadata argument is stored as the empty string.
   */
  function Create(eventId: Guid, eventType: Option<string>, jsonData: Option<string>,
                  metadata: Option<string> := None): (r: Result<NewStreamEvent, ArgumentError>)
    ensures r.Success? <==>
      eventId != EmptyGuid && IsNotNullOrEmpty(eventType) && IsNotNullOrEmpty(jsonData)
    ensures eventId == EmptyGuid ==> r == Failure(ArgumentEmpty("eventId"))
    ensures eventId != EmptyGuid && !IsNotNullOrEmpty(eventType) ==>
      r.Failure? && r.error.paramName == "type"
    ensures eventId != EmptyGuid && IsNotNullOrEmpty(eventType) && !IsNotNullOrEmpty(jsonData) ==>
      r.Failure? && r.error.paramName == "data"
    ensures r.Success? ==>
      && ValidEvent(r.value)
      && r.value.eventId == eventId
      && Some(r.value.eventType) == eventType
      && Some(r.value.jsonData) == jsonData
      && r.value.jsonMetadata == metadata.GetOr("")
  {
    if eventId == EmptyGuid then Failure(ArgumentEmpty("eventId"))
    else match CheckNotNullOrEmpty(eventType, "type")
      case Some(err) => Failure(err)
      case None =>
        match CheckNotNullOrEmpty(jsonData, "data")
        case Some(err) => Failure(err)
        case None => Success(NewStreamEvent(jsonData.value, eventId, eventType.value, metadata.GetOr("")))
  }

  /** Every valid event is what the constructor builds from its own fields. */
  lemma CreateRoundTrip(e: NewStreamEvent)
    requires ValidEvent(e)
    ensures Create(e.eventId, Some(e.eventType), Some(e.jsonData), Some(e.jsonMetadata)) == Success(e)
  {
  }

  /** A null metadata argument and an empty one build the same event. */
  lemma NullMetadataIsEmpty(eventId: Guid, eventType: Option<string>, jsonData: Option<string>)
    ensures Create(eventId, eventType, jsonData, None) == Create(eventId, eventType, jsonData, Some(""))
  {
  }
}
