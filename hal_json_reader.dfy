/**
 * The HAL resource reader as the source runs it: static methods that
 * advance one shared JsonReader cursor in `while` loops and build the
 * resource as they go. Each method is proved to return what the function
 * of the same name in module HalReader returns, with the cursor handling
 * as written, and to leave the cursor where that function says; a thrown
 * exception is a Failure carrying the error.
 */
module HalResourceJsonReader {
  import opened Wrappers
  import opened JsonTokens
  import HalReader

  type Resource = HalReader.Resource
  type Link = HalReader.Link
  type HalError = HalReader.HalError

  const AsWritten := HalReader.AsWritten

  /**
   * A method's result `r` and the cursor `pos` it leaves agree with what a
   * reader function returns: the same value and end position, or the same
   * error.
   */
  ghost predicate Agrees<X>(r: Result<X, HalError>, pos: int, f: Result<(X, int), HalError>) {
    match f
    case Success((x, e)) => r == Success(x) && pos == e
    case Failure(err) => r == Failure(err)
  }

  /** ReadNextToken: read one more token, throwing when there is none. */
  method ReadNextToken(reader: JsonReader) returns (err: Option<HalError>)
    requires reader.Valid()
    modifies reader
    ensures reader.Valid()
    ensures match HalReader.ReadNextToken(reader.tokens, old(reader.pos))
            case Success(p) => err == None && reader.pos == p
            case Failure(e) => err == Some(e)
  {
    var more := reader.ReadAsync();
    if !more {
      return Some(HalReader.UnexpectedEnd);
    }
    return None;
  }

  /** SkipComments: read past comments, throwing when the tokens run out. */
  method SkipComments(reader: JsonReader) returns (err: Option<HalError>)
    requires reader.Valid()
    modifies reader
    ensures reader.Valid()
    ensures match HalReader.SkipComments(reader.tokens, old(reader.pos))
            case Success(p) => err == None && reader.pos == p
            case Failure(e) => err == Some(e)
  {
    while reader.TokenType() == Comment
      invariant reader.Valid()
      invariant HalReader.SkipComments(reader.tokens, reader.pos) == HalReader.SkipComments(reader.tokens, old(reader.pos))
      decreases |reader.tokens| - reader.pos
    {
      var more := reader.ReadAsync();
      if !more {
        return Some(HalReader.UnexpectedEnd);
      }
    }
    return None;
  }

  /** AssertNextTokenIsStartObject: throw unless the cursor is on a StartObject. */
  method AssertNextTokenIsStartObject(reader: JsonReader) returns (err: Option<HalError>)
    ensures err.None? <==> reader.TokenType() == StartObject
    ensures err.Some? ==> err.value == HalReader.UnexpectedToken(reader.TokenType())
  {
    if reader.TokenType() != StartObject {
      return Some(HalReader.UnexpectedToken(reader.TokenType()));
    }
    return None;
  }

  /** SkipComments, then AssertNextTokenIsStartObject, as each reader of an object starts. */
  method OpenObject(reader: JsonReader) returns (err: Option<HalError>)
    requires reader.Valid()
    modifies reader
    ensures reader.Valid()
    ensures match HalReader.OpenObject(reader.tokens, old(reader.pos))
            case Success(p) => err == None && reader.pos == p
            case Failure(e) => err == Some(e)
  {
    err := SkipComments(reader);
    if err.None? {
      err := AssertNextTokenIsStartObject(reader);
    }
  }

  /**
   * ReadResource: a reader that has not read yet first reads one token;
   * then the members are read until the EndObject, after which one more
   * token is read, or until the tokens run out.
   */
  method ReadResource(reader: JsonReader) returns (r: Result<Resource, HalError>)
    requires reader.Valid()
    modifies reader
    decreases |reader.tokens| - reader.pos, 1
    ensures reader.Valid()
    ensures Agrees(r, reader.pos, HalReader.ReadResource(reader.tokens, old(reader.pos), AsWritten))
  {
    ghost var t, start := reader.tokens, reader.pos;
    if reader.TokenType() == NoToken {
      var err := ReadNextToken(reader);
      if err.Some? {
        return Failure(err.value);
      }
    }
    ghost var first := reader.pos;
    assert (if TokenAt(t, start) == NoToken then HalReader.ReadNextToken(t, start) else Success(start)) == Success(first);
    var err := OpenObject(reader);
    if err.Some? {
      return Failure(err.value);
    }
    var resource := HalReader.EmptyResource;
    while true
      invariant reader.Valid() && start <= reader.pos <= |t| && 0 <= reader.pos
      invariant HalReader.ResourceLoop(t, reader.pos, resource, AsWritten) == HalReader.ReadResource(t, start, AsWritten)
      decreases |t| - reader.pos
    {
      ghost var p := reader.pos;
      var more := reader.ReadAsync();
      if !more {
        return Success(resource);
      }
      match reader.TokenType()
      case PropertyName(name) =>
        err := ReadNextToken(reader);
        if err.Some? {
          return Failure(err.value);
        }
        var next := ReadProperty(reader, p, name, resource);
        if next.Failure? {
          return Failure(next.error);
        }
        resource := next.value;
      case EndObject =>
        var _ := reader.ReadAsync();
        return Success(resource);
      case Comment =>
      case _ =>
        return Failure(HalReader.UnexpectedToken(reader.TokenType()));
    }
  }

  /**
   * The value of the property `name` whose name token is at `p + 1`, the
   * cursor being on the token after it: `_links` and `_embedded` have
   * readers of their own, any other value is loaded and stored under its
   * name (a JSON null as nothing). This is one turn of the loop of
   * ReadResource: it continues with the resource returned, from where the
   * cursor is left, or throws what the loop throws.
   */
  method ReadProperty(reader: JsonReader, ghost p: int, name: string, resource: Resource) returns (r: Result<Resource, HalError>)
    requires reader.Valid() && 0 <= p && reader.pos == p + 2 < |reader.tokens|
    requires reader.tokens[p + 1] == PropertyName(name)
    modifies reader
    decreases |reader.tokens| - reader.pos, 2
    ensures reader.Valid()
    ensures r.Success? ==> p + 2 <= reader.pos <= |reader.tokens| &&
                           HalReader.ResourceLoop(reader.tokens, p, resource, AsWritten) ==
                           HalReader.ResourceLoop(reader.tokens, reader.pos, r.value, AsWritten)
    ensures r.Failure? ==> HalReader.ResourceLoop(reader.tokens, p, resource, AsWritten) == Failure(r.error)
  {
    if name == HalReader.LinksProperty {
      var links := ReadLinks(reader);
      if links.Failure? {
        return Failure(links.error);
      }
      return Success(resource.(links := links.value));
    } else if name == HalReader.EmbeddedProperty {
      var embedded := ReadEmbedded(reader);
      if embedded.Failure? {
        return Failure(embedded.error);
      }
      return Success(resource.(embedded := embedded.value));
    } else {
      var value := reader.Load();
      if value.None? {
        return Failure(HalReader.LoadFailed(reader.TokenType()));
      }
      return Success(resource.(properties := resource.properties[name := HalReader.PropertyValue(value.value)]));
    }
  }

  /**
   * ReadLinks: the `_links` object, its rels' links concatenated in
   * document order; the cursor stays on the EndObject, and running out of
   * tokens throws.
   */
  method ReadLinks(reader: JsonReader) returns (r: Result<seq<Link>, HalError>)
    requires reader.Valid() && 0 <= reader.pos
    modifies reader
    ensures reader.Valid()
    ensures Agrees(r, reader.pos, HalReader.ReadLinks(reader.tokens, old(reader.pos)))
  {
    ghost var t, start := reader.tokens, reader.pos;
    var err := OpenObject(reader);
    if err.Some? {
      return Failure(err.value);
    }
    var links: seq<Link> := [];
    while true
      invariant reader.Valid() && 0 <= reader.pos < |t|
      invariant HalReader.LinksLoop(t, reader.pos, links) == HalReader.ReadLinks(t, start)
      decreases |t| - reader.pos
    {
      var more := reader.ReadAsync();
      if !more {
        return Failure(HalReader.UnexpectedEnd);
      }
      match reader.TokenType()
      case PropertyName(rel) =>
        err := ReadNextToken(reader);
        if err.Some? {
          return Failure(err.value);
        }
        var relLinks := ReadRelLinks(reader, rel);
        if relLinks.Failure? {
          return Failure(relLinks.error);
        }
        links := links + relLinks.value;
      case Comment =>
      case EndObject =>
        return Success(links);
      case _ =>
        return Failure(HalReader.UnexpectedToken(reader.TokenType()));
    }
  }

  /**
   * ReadLinks(rel): a single link object, which gets the rel, or an array
   * of links, which do not; the cursor ends on the value's last token.
   */
  method ReadRelLinks(reader: JsonReader, rel: string) returns (r: Result<seq<Link>, HalError>)
    requires reader.Valid() && 0 <= reader.pos < |reader.tokens|
    modifies reader
    ensures reader.Valid()
    ensures Agrees(r, reader.pos, HalReader.RelLinks(reader.tokens, old(reader.pos), rel))
  {
    var start := reader.pos;
    match reader.TokenType()
    case StartObject =>
      var value := reader.Load();
      if value.None? {
        return Failure(HalReader.LoadFailed(StartObject));
      }
      return Success([HalReader.Link(Some(rel), value.value)]);
    case StartArray =>
      var value := reader.Load();
      if value.None? {
        return Failure(HalReader.LoadFailed(StartArray));
      }
      return Success(HalReader.ArrayLinks(ArrayElements(reader.tokens, start + 1, reader.pos)));
    case _ =>
      return Failure(HalReader.UnexpectedToken(reader.TokenType()));
  }

  /**
   * ReadEmbedded: the `_embedded` object, its rels' resources concatenated
   * in document order; after the EndObject one more token is read, and
   * running out of tokens throws.
   */
  method ReadEmbedded(reader: JsonReader) returns (r: Result<seq<Resource>, HalError>)
    requires reader.Valid() && 0 <= reader.pos
    modifies reader
    decreases |reader.tokens| - reader.pos, 1
    ensures reader.Valid()
    ensures Agrees(r, reader.pos, HalReader.ReadEmbedded(reader.tokens, old(reader.pos), AsWritten))
  {
    ghost var t, start := reader.tokens, reader.pos;
    var err := OpenObject(reader);
    if err.Some? {
      return Failure(err.value);
    }
    var embedded: seq<Resource> := [];
    while true
      invariant reader.Valid() && start <= reader.pos <= |t|
      invariant HalReader.EmbeddedLoop(t, reader.pos, embedded, AsWritten) == HalReader.ReadEmbedded(t, start, AsWritten)
      decreases |t| - reader.pos
    {
      var more := reader.ReadAsync();
      if !more {
        return Failure(HalReader.UnexpectedEnd);
      }
      match reader.TokenType()
      case PropertyName(rel) =>
        err := ReadNextToken(reader);
        if err.Some? {
          return Failure(err.value);
        }
        var resources := ReadRelEmbedded(reader, rel);
        if resources.Failure? {
          return Failure(resources.error);
        }
        embedded := embedded + resources.value;
      case Comment =>
      case EndObject =>
        var _ := reader.ReadAsync();
        return Success(embedded);
      case _ =>
        return Failure(HalReader.UnexpectedToken(reader.TokenType()));
    }
  }

  /**
   * ReadEmbedded(rel): one resource object, or an array of them read one
   * after the other until the EndArray, past which one more token is read;
   * each resource gets the rel.
   */
  method ReadRelEmbedded(reader: JsonReader, rel: string) returns (r: Result<seq<Resource>, HalError>)
    requires reader.Valid() && 0 <= reader.pos < |reader.tokens|
    modifies reader
    decreases |reader.tokens| - reader.pos, 2
    ensures reader.Valid()
    ensures Agrees(r, reader.pos, HalReader.EmbeddedRel(reader.tokens, old(reader.pos), rel, AsWritten))
  {
    ghost var t, start := reader.tokens, reader.pos;
    match reader.TokenType()
    case StartObject =>
      var resource := ReadResource(reader);
      if resource.Failure? {
        return Failure(resource.error);
      }
      return Success([resource.value.(rel := Some(rel))]);
    case StartArray =>
      var err := ReadNextToken(reader);
      if err.Some? {
        return Failure(err.value);
      }
      var resources: seq<Resource> := [];
      while reader.TokenType() != EndArray
        invariant reader.Valid() && start < reader.pos <= |t|
        invariant HalReader.EmbeddedArray(t, reader.pos, rel, resources, AsWritten) == HalReader.EmbeddedRel(t, start, rel, AsWritten)
        decreases |t| - reader.pos
      {
        var resource := ReadResource(reader);
        if resource.Failure? {
          return Failure(resource.error);
        }
        resources := resources + [resource.value.(rel := Some(rel))];
      }
      err := ReadNextToken(reader);
      if err.Some? {
        return Failure(err.value);
      }
      return Success(resources);
    case _ =>
      return Failure(HalReader.UnexpectedToken(reader.TokenType()));
  }
}
