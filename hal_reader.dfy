/**
 * Reading a HAL resource from a JSON token stream, as functions of the
 * tokens and the reader's cursor. Each reader returns what it read and
 * where it leaves the cursor, or the error it throws.
 *
 * The readers differ in where they leave the cursor. A loaded value, the
 * `_links` object and each rel of it end with the cursor ON their last
 * token. As written, a resource's EndObject, the `_embedded` object's
 * EndObject and an array of embedded resources are each followed by one
 * more read, so those readers end one token PAST their value. The loops
 * that call them read once more before looking at the next token either
 * way. `Convention` selects between the behaviour as written and one in
 * which every reader ends on its value's last token.
 */
module HalReader {
  import opened Wrappers
  import opened JsonTokens

  /** What a reader throws. LoadFailed: the JSON library could not load the value under the cursor. */
  datatype HalError = UnexpectedToken(token: Token) | UnexpectedEnd | LoadFailed(token: Token)

  /** A link: the rel it was listed under (set only for a single link object), and its JSON. */
  datatype Link = Link(rel: Option<string>, body: seq<Token>)

  /**
   * A resource: its state properties (None for a JSON null), its links,
   * its embedded resources, and the rel it was embedded under.
   */
  datatype Resource = Resource(
    properties: map<string, Option<seq<Token>>>,
    links: seq<Link>,
    embedded: seq<Resource>,
    rel: Option<string>)

  const EmptyResource: Resource := Resource(map[], [], [], None)

  const LinksProperty: string := "_links"
  const EmbeddedProperty: string := "_embedded"

  /** AsWritten: the cursor handling of the source. EndOnLast: every reader ends on its value's last token. */
  datatype Convention = AsWritten | EndOnLast

  /** What a property holds once loaded: nothing for a JSON null. */
  function PropertyValue(v: seq<Token>): (r: Option<seq<Token>>)
    ensures r.None? <==> v == [Null]
  {
    if v == [Null] then None else Some(v)
  }

  /** Read one more token, throwing when there is none. */
  function ReadNextToken(t: seq<Token>, pos: int): (r: Result<int, HalError>)
    requires -1 <= pos <= |t|
    ensures r.Success? <==> pos + 1 < |t|
    ensures r.Success? ==> r.value == pos + 1
    ensures r.Failure? ==> r.error == UnexpectedEnd
  {
    if pos + 1 < |t| then Success(pos + 1) else Failure(UnexpectedEnd)
  }

  /** Move past comments, throwing when the tokens run out. */
  function SkipComments(t: seq<Token>, pos: int): (r: Result<int, HalError>)
    requires -1 <= pos <= |t|
    decreases |t| - pos
    ensures r.Success? ==> pos <= r.value <= |t| && TokenAt(t, r.value) != Comment
    ensures r.Success? ==> forall k | pos <= k < r.value :: TokenAt(t, k) == Comment
    ensures r.Success? ==> r.value == pos || r.value < |t|
    ensures r.Failure? ==> r.error == UnexpectedEnd
    ensures r.Failure? ==> forall k | pos <= k < |t| :: TokenAt(t, k) == Comment
  {
    if TokenAt(t, pos) != Comment then Success(pos)
    else if pos + 1 < |t| then SkipComments(t, pos + 1)
    else Failure(UnexpectedEnd)
  }

  /** Skip comments and insist on a StartObject. */
  function OpenObject(t: seq<Token>, pos: int): (r: Result<int, HalError>)
    requires -1 <= pos <= |t|
    ensures r.Success? ==> pos <= r.value && 0 <= r.value < |t| && t[r.value] == StartObject
    ensures r.Success? ==> forall k | pos <= k < r.value :: TokenAt(t, k) == Comment
    ensures r.Failure? ==> r.error == UnexpectedEnd || (r.error.UnexpectedToken? && r.error.token != StartObject)
    ensures SkipComments(t, pos).Success? ==>
      var p := SkipComments(t, pos).value;
      r == if TokenAt(t, p) == StartObject then Success(p) else Failure(UnexpectedToken(TokenAt(t, p)))
    ensures SkipComments(t, pos).Failure? ==> r == Failure(UnexpectedEnd)
  {
    match SkipComments(t, pos)
    case Failure(e) => Failure(e)
    case Success(p) =>
      if TokenAt(t, p) == StartObject then Success(p) else Failure(UnexpectedToken(TokenAt(t, p)))
  }

  /**
   * Read a resource. A reader that has not read yet first reads one token;
   * then comments are skipped and a StartObject is required.
   */
  function ReadResource(t: seq<Token>, pos: int, c: Convention): (r: Result<(Resource, int), HalError>)
    requires -1 <= pos <= |t|
    decreases |t| - pos, 1
    ensures r.Success? ==> pos < r.value.1 <= |t|
  {
    var first := if TokenAt(t, pos) == NoToken then ReadNextToken(t, pos) else Success(pos);
    match first
    case Failure(e) => Failure(e)
    case Success(p) =>
      match OpenObject(t, p)
      case Failure(e) => Failure(e)
      case Success(q) => ResourceLoop(t, q, EmptyResource, c)
  }

  /**
   * The loop over a resource's members, the cursor on the last token
   * consumed. `_links` and `_embedded` have readers of their own; any
   * other property is loaded and stored under its name. The EndObject
   * ends the resource; when the tokens run out, the resource read so far
   * is the result.
   */
  function ResourceLoop(t: seq<Token>, pos: int, res: Resource, c: Convention): (r: Result<(Resource, int), HalError>)
    requires 0 <= pos <= |t|
    decreases |t| - pos, 0
    ensures r.Success? ==> (pos < r.value.1 || r.value.1 == |t|) && r.value.1 <= |t|
  {
    if pos + 1 >= |t| then Success((res, |t|))
    else
      var q := pos + 1;
      match t[q]
      case PropertyName(name) =>
        (match ReadNextToken(t, q)
         case Failure(e) => Failure(e)
         case Success(v) =>
           if name == LinksProperty then
             match ReadLinks(t, v)
             case Failure(e) => Failure(e)
             case Success((links, e)) => ResourceLoop(t, e, res.(links := links), c)
           else if name == EmbeddedProperty then
             match ReadEmbedded(t, v, c)
             case Failure(e) => Failure(e)
             case Success((embedded, e)) => ResourceLoop(t, e, res.(embedded := embedded), c)
           else
             match ValueEnd(t, v)
             case None => Failure(LoadFailed(t[v]))
             case Some(e) =>
               ResourceLoop(t, e, res.(properties := res.properties[name := PropertyValue(t[v..e + 1])]), c))
      case EndObject => Success((res, if c == AsWritten then Next(t, q) else q))
      case Comment => ResourceLoop(t, q, res, c)
      case _ => Failure(UnexpectedToken(t[q]))
  }

  /** Read the `_links` object: comments skipped, a StartObject required. */
  function ReadLinks(t: seq<Token>, pos: int): (r: Result<(seq<Link>, int), HalError>)
    requires 0 <= pos <= |t|
    ensures r.Success? ==> pos < r.value.1 < |t|
  {
    match OpenObject(t, pos)
    case Failure(e) => Failure(e)
    case Success(q) => LinksLoop(t, q, [])
  }

  /** The loop over the rels of `_links`; it ends on the EndObject and throws when the tokens run out. */
  function LinksLoop(t: seq<Token>, pos: int, acc: seq<Link>): (r: Result<(seq<Link>, int), HalError>)
    requires 0 <= pos < |t|
    decreases |t| - pos
    ensures r.Success? ==> pos < r.value.1 < |t| && t[r.value.1] == EndObject
  {
    if pos + 1 >= |t| then Failure(UnexpectedEnd)
    else
      var q := pos + 1;
      match t[q]
      case PropertyName(rel) =>
        (match ReadNextToken(t, q)
         case Failure(e) => Failure(e)
         case Success(v) =>
           match RelLinks(t, v, rel)
           case Failure(e) => Failure(e)
           case Success((links, e)) => LinksLoop(t, e, acc + links))
      case Comment => LinksLoop(t, q, acc)
      case EndObject => Success((acc, q))
      case _ => Failure(UnexpectedToken(t[q]))
  }

  /**
   * The links listed under one rel: a single link object, which gets the
   * rel, or an array converted element by element, which does not.
   */
  function RelLinks(t: seq<Token>, pos: int, rel: string): (r: Result<(seq<Link>, int), HalError>)
    requires 0 <= pos < |t|
    ensures r.Success? ==> pos <= r.value.1 < |t|
  {
    match t[pos]
    case StartObject =>
      (match ValueEnd(t, pos)
       case None => Failure(LoadFailed(t[pos]))
       case Some(e) => Success(([Link(Some(rel), t[pos..e + 1])], e)))
    case StartArray =>
      (match ValueEnd(t, pos)
       case None => Failure(LoadFailed(t[pos]))
       case Some(e) =>
         var elements := ArrayElements(t, pos + 1, e);
         Success((ArrayLinks(elements), e)))
    case _ => Failure(UnexpectedToken(t[pos]))
  }

  /** The links converted from the elements of an array: none of them carries a rel. */
  function ArrayLinks(elements: seq<seq<Token>>): (r: seq<Link>)
    ensures |r| == |elements|
    ensures forall k :: 0 <= k < |r| ==> r[k] == Link(None, elements[k])
  {
    if elements == [] then [] else [Link(None, elements[0])] + ArrayLinks(elements[1..])
  }

  /** Read the `_embedded` object: comments skipped, a StartObject required. */
  function ReadEmbedded(t: seq<Token>, pos: int, c: Convention): (r: Result<(seq<Resource>, int), HalError>)
    requires 0 <= pos <= |t|
    decreases |t| - pos, 1
    ensures r.Success? ==> pos < r.value.1 <= |t|
  {
    match OpenObject(t, pos)
    case Failure(e) => Failure(e)
    case Success(q) => EmbeddedLoop(t, q, [], c)
  }

  /** The loop over the rels of `_embedded`; it throws when the tokens run out. */
  function EmbeddedLoop(t: seq<Token>, pos: int, acc: seq<Resource>, c: Convention): (r: Result<(seq<Resource>, int), HalError>)
    requires 0 <= pos <= |t|
    decreases |t| - pos, 0
    ensures r.Success? ==> pos < r.value.1 <= |t|
  {
    if pos + 1 >= |t| then Failure(UnexpectedEnd)
    else
      var q := pos + 1;
      match t[q]
      case PropertyName(rel) =>
        (match ReadNextToken(t, q)
         case Failure(e) => Failure(e)
         case Success(v) =>
           match EmbeddedRel(t, v, rel, c)
           case Failure(e) => Failure(e)
           case Success((resources, e)) => EmbeddedLoop(t, e, acc + resources, c))
      case Comment => EmbeddedLoop(t, q, acc, c)
      case EndObject => Success((acc, if c == AsWritten then Next(t, q) else q))
      case _ => Failure(UnexpectedToken(t[q]))
  }

  /** The resources embedded under one rel: one resource object, or an array of them; each gets the rel. */
  function EmbeddedRel(t: seq<Token>, pos: int, rel: string, c: Convention): (r: Result<(seq<Resource>, int), HalError>)
    requires 0 <= pos < |t|
    decreases |t| - pos, 2
    ensures r.Success? ==> pos < r.value.1 <= |t|
  {
    match t[pos]
    case StartObject =>
      (match ReadResource(t, pos, c)
       case Failure(e) => Failure(e)
       case Success((resource, e)) => Success(([resource.(rel := Some(rel))], e)))
    case StartArray =>
      (match ReadNextToken(t, pos)
       case Failure(e) => Failure(e)
       case Success(v) => EmbeddedArray(t, v, rel, [], c))
    case _ => Failure(UnexpectedToken(t[pos]))
  }

  /** The loop over an array of embedded resources, the cursor on the next element or the EndArray. */
  function EmbeddedArray(t: seq<Token>, pos: int, rel: string, acc: seq<Resource>, c: Convention): (r: Result<(seq<Resource>, int), HalError>)
    requires 0 <= pos <= |t|
    decreases |t| - pos, 2
    ensures r.Success? ==> pos <= r.value.1 <= |t|
  {
    if TokenAt(t, pos) == EndArray then
      if c == AsWritten then
        match ReadNextToken(t, pos)
        case Failure(e) => Failure(e)
        case Success(v) => Success((acc, v))
      else Success((acc, pos))
    else
      match ReadResource(t, pos, c)
      case Failure(e) => Failure(e)
      case Success((resource, e)) =>
        var acc' := acc + [resource.(rel := Some(rel))];
        if c == AsWritten then EmbeddedArray(t, e, rel, acc', c)
        else
          match ReadNextToken(t, e)
          case Failure(err) => Failure(err)
          case Success(v) => EmbeddedArray(t, v, rel, acc', c)
  }

  /** Read a resource from a reader that has not read yet. */
  function Read(t: seq<Token>, c: Convention): Result<(Resource, int), HalError> {
    ReadResource(t, -1, c)
  }
}
