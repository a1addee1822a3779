/**
 * What the HAL reader reads from a document a HAL writer wrote. A writer
 * emits a resource's state properties, then `_links` (when it has links),
 * then `_embedded` (when it has embedded resources). Decode says what a
 * reader should make of that document; the laws state when each reader
 * convention does so, and give the documents on which the cursor handling
 * as written goes wrong.
 */
module HalReaderLaws {
  import opened Wrappers
  import opened JsonTokens
  import opened HalReader

  /** A HAL document: state properties in order, link rels, embedded rels. */
  datatype Doc = Doc(properties: seq<JMember>, links: seq<LinkRel>, embedded: seq<EmbeddedRel>)

  /** The links under one rel: a single link object (its members), or an array of links. */
  datatype LinkRel = LinkRel(rel: string, links: RelLinksDoc)
  datatype RelLinksDoc = SingleLink(members: seq<JMember>) | LinkArray(items: seq<Json>)

  /** The resources embedded under one rel: one resource, or an array of them. */
  datatype EmbeddedRel = EmbeddedRel(rel: string, resources: RelDocs)
  datatype RelDocs = SingleDoc(doc: Doc) | DocArray(docs: seq<Doc>)

  // ---------------------------------------------------------------------
  // Writing a document

  /** A document's tokens: its StartObject, its members, its EndObject. */
  function Encode(d: Doc): (r: seq<Token>)
    decreases d, 2
    ensures |r| >= 2
  {
    [StartObject] + MembersTokens(d) + [EndObject]
  }

  /** The members: the state properties, then `_links` (when there are links), then `_embedded` (when there are embedded resources). */
  function MembersTokens(d: Doc): seq<Token>
    decreases d, 1
  {
    MemberTokens(d.properties) + LinksTokens(d.links) + EmbeddedTokens(d.embedded)
  }

  function LinksTokens(ls: seq<LinkRel>): seq<Token> {
    if ls == [] then [] else [PropertyName(LinksProperty)] + LinksObjectTokens(ls)
  }

  function LinksObjectTokens(ls: seq<LinkRel>): seq<Token> {
    [StartObject] + LinkRelTokens(ls) + [EndObject]
  }

  function LinkRelTokens(ls: seq<LinkRel>): seq<Token> {
    if ls == [] then [] else [PropertyName(ls[0].rel)] + RelLinksTokens(ls[0].links) + LinkRelTokens(ls[1..])
  }

  function RelLinksTokens(l: RelLinksDoc): (r: seq<Token>)
    ensures |r| >= 2
  {
    match l
    case SingleLink(ms) => Tokens(JObject(ms))
    case LinkArray(xs) => Tokens(JArray(xs))
  }

  function EmbeddedTokens(es: seq<EmbeddedRel>): seq<Token>
    decreases es, 3
  {
    if es == [] then [] else [PropertyName(EmbeddedProperty)] + EmbeddedObjectTokens(es)
  }

  function EmbeddedObjectTokens(es: seq<EmbeddedRel>): seq<Token>
    decreases es, 2
  {
    [StartObject] + EmbeddedRelTokens(es) + [EndObject]
  }

  function EmbeddedRelTokens(es: seq<EmbeddedRel>): seq<Token>
    decreases es, 1
  {
    if es == [] then []
    else [PropertyName(es[0].rel)] + RelDocsTokens(es[0].resources) + EmbeddedRelTokens(es[1..])
  }

  function RelDocsTokens(r: RelDocs): (s: seq<Token>)
    decreases r, 0
    ensures |s| >= 2
  {
    match r
    case SingleDoc(d) => Encode(d)
    case DocArray(ds) => [StartArray] + DocsTokens(ds) + [EndArray]
  }

  function DocsTokens(ds: seq<Doc>): seq<Token>
    decreases ds, 0
  {
    if ds == [] then [] else Encode(ds[0]) + DocsTokens(ds[1..])
  }

  // ---------------------------------------------------------------------
  // What a document means

  /** No state property uses a name the reader reserves for links or embedded resources. */
  predicate PlainProperties(ms: seq<JMember>) {
    forall k :: 0 <= k < |ms| ==> ms[k].name != LinksProperty && ms[k].name != EmbeddedProperty
  }

  /** A document, and every document embedded in it, has plain state properties. */
  predicate WellFormed(d: Doc)
    decreases d, 3
  {
    PlainProperties(d.properties) && WellFormedRels(d.embedded)
  }

  predicate WellFormedRels(es: seq<EmbeddedRel>)
    decreases es, 2
  {
    es != [] ==> WellFormedDocs(es[0].resources) && WellFormedRels(es[1..])
  }

  predicate WellFormedDocs(r: RelDocs)
    decreases r, 1
  {
    match r
    case SingleDoc(d) => WellFormed(d)
    case DocArray(ds) => WellFormedList(ds)
  }

  predicate WellFormedList(ds: seq<Doc>)
    decreases ds, 0
  {
    ds != [] ==> WellFormed(ds[0]) && WellFormedList(ds[1..])
  }

  /** Store the properties in order: a later property replaces an earlier one of the same name. */
  function AddProperties(m: map<string, Option<seq<Token>>>, ms: seq<JMember>): map<string, Option<seq<Token>>>
    decreases |ms|
  {
    if ms == [] then m
    else AddProperties(m[ms[0].name := PropertyValue(Tokens(ms[0].value))], ms[1..])
  }

  /** The links of all rels, in document order. */
  function LinksOf(ls: seq<LinkRel>): seq<Link> {
    if ls == [] then [] else RelLinksOf(ls[0]) + LinksOf(ls[1..])
  }

  /** A single link object carries its rel; the links of an array do not. */
  function RelLinksOf(l: LinkRel): seq<Link> {
    match l.links
    case SingleLink(ms) => [Link(Some(l.rel), Tokens(JObject(ms)))]
    case LinkArray(xs) => ArrayLinks(ItemsAsTokens(xs))
  }

  /** The resource a reader should make of a document. */
  function Decode(d: Doc): Resource
    decreases d, 3
  {
    Resource(AddProperties(map[], d.properties), LinksOf(d.links), EmbeddedOf(d.embedded), None)
  }

  function EmbeddedOf(es: seq<EmbeddedRel>): seq<Resource>
    decreases es, 2
  {
    if es == [] then [] else RelDocsOf(es[0]) + EmbeddedOf(es[1..])
  }

  /** Every resource embedded under a rel carries that rel. */
  function RelDocsOf(e: EmbeddedRel): seq<Resource>
    decreases e, 1
  {
    match e.resources
    case SingleDoc(d) => [Decode(d).(rel := Some(e.rel))]
    case DocArray(ds) => DecodeAll(ds, e.rel)
  }

  function DecodeAll(ds: seq<Doc>, rel: string): seq<Resource>
    decreases ds, 0
  {
    if ds == [] then [] else [Decode(ds[0]).(rel := Some(rel))] + DecodeAll(ds[1..], rel)
  }

  // ---------------------------------------------------------------------
  // One turn of each loop

  /** A plain property: its value is loaded and stored under its name. */
  lemma {:induction false} PropertyStep(t: seq<Token>, p: int, res: Resource, c: Convention, name: string, e: nat)
    requires 0 <= p && p + 2 < |t| && t[p + 1] == PropertyName(name)
    requires name != LinksProperty && name != EmbeddedProperty && ValueEnd(t, p + 2) == Some(e)
    ensures ResourceLoop(t, p, res, c) ==
            ResourceLoop(t, e, res.(properties := res.properties[name := PropertyValue(t[p + 2..e + 1])]), c)
  {
  }

  /** The `_links` property: the links it holds replace the resource's links. */
  lemma {:induction false} LinksStep(t: seq<Token>, p: int, res: Resource, c: Convention, links: seq<Link>, e: int)
    requires 0 <= p && p + 2 < |t| && t[p + 1] == PropertyName(LinksProperty)
    requires ReadLinks(t, p + 2) == Success((links, e))
    ensures ResourceLoop(t, p, res, c) == ResourceLoop(t, e, res.(links := links), c)
  {
  }

  /** The `_embedded` property: the resources it holds replace the resource's embedded resources. */
  lemma {:induction false} EmbeddedStep(t: seq<Token>, p: int, res: Resource, c: Convention, embedded: seq<Resource>, e: int)
    requires 0 <= p && p + 2 < |t| && t[p + 1] == PropertyName(EmbeddedProperty)
    requires ReadEmbedded(t, p + 2, c) == Success((embedded, e))
    ensures ResourceLoop(t, p, res, c) == ResourceLoop(t, e, res.(embedded := embedded), c)
  {
  }

  /** An `_embedded` property whose reader throws: the resource's reader throws the same. */
  lemma {:induction false} EmbeddedFailureStep(t: seq<Token>, p: int, res: Resource, c: Convention, err: HalError)
    requires 0 <= p && p + 2 < |t| && t[p + 1] == PropertyName(EmbeddedProperty)
    requires ReadEmbedded(t, p + 2, c) == Failure(err)
    ensures ResourceLoop(t, p, res, c) == Failure(err)
  {
  }

  /** The EndObject ends the resource: as written one read follows, with the corrected convention none. */
  lemma {:induction false} EndObjectStep(t: seq<Token>, p: int, res: Resource, c: Convention)
    requires 0 <= p && p + 1 < |t| && t[p + 1] == EndObject
    ensures ResourceLoop(t, p, res, c) == Success((res, if c == AsWritten then p + 2 else p + 1))
  {
  }

  /** When the tokens run out, the resource read so far is the result. */
  lemma {:induction false} EndOfTokensStep(t: seq<Token>, p: int, res: Resource, c: Convention)
    requires 0 <= p < |t| && p + 1 == |t|
    ensures ResourceLoop(t, p, res, c) == Success((res, |t|))
  {
  }

  /** A resource whose StartObject is under the cursor: its members are read from there. */
  lemma {:induction false} ResourceStart(t: seq<Token>, i: int, c: Convention)
    requires 0 <= i < |t| && t[i] == StartObject
    ensures ReadResource(t, i, c) == ResourceLoop(t, i, EmptyResource, c)
  {
  }

  /** A reader that has not read yet reads the first token and goes on from there. */
  lemma {:induction false} ReadFromStart(t: seq<Token>, c: Convention)
    requires |t| > 0 && t[0] != NoToken
    ensures Read(t, c) == ReadResource(t, 0, c)
  {
  }

  /** An object under the cursor opens the `_links` loop. */
  lemma {:induction false} LinksOpenStep(t: seq<Token>, pos: int)
    requires 0 <= pos < |t| && t[pos] == StartObject
    ensures ReadLinks(t, pos) == LinksLoop(t, pos, [])
  {
  }

  /** One rel of `_links`. */
  lemma {:induction false} LinkRelStep(t: seq<Token>, q: int, acc: seq<Link>, rel: string, links: seq<Link>, e: int)
    requires 0 <= q && q + 2 < |t| && t[q + 1] == PropertyName(rel)
    requires RelLinks(t, q + 2, rel) == Success((links, e))
    ensures LinksLoop(t, q, acc) == LinksLoop(t, e, acc + links)
  {
  }

  /** The EndObject of `_links`: the cursor stays on it. */
  lemma {:induction false} LinksEndStep(t: seq<Token>, q: int, acc: seq<Link>)
    requires 0 <= q && q + 1 < |t| && t[q + 1] == EndObject
    ensures LinksLoop(t, q, acc) == Success((acc, q + 1))
  {
  }

  /** An object under the cursor opens the `_embedded` loop. */
  lemma {:induction false} EmbeddedOpenStep(t: seq<Token>, pos: int, c: Convention)
    requires 0 <= pos < |t| && t[pos] == StartObject
    ensures ReadEmbedded(t, pos, c) == EmbeddedLoop(t, pos, [], c)
  {
  }

  /** One rel of `_embedded`. */
  lemma {:induction false} EmbeddedRelStep(t: seq<Token>, q: int, acc: seq<Resource>, c: Convention, rel: string, resources: seq<Resource>, e: int)
    requires 0 <= q && q + 2 < |t| && t[q + 1] == PropertyName(rel)
    requires HalReader.EmbeddedRel(t, q + 2, rel, c) == Success((resources, e))
    ensures EmbeddedLoop(t, q, acc, c) == EmbeddedLoop(t, e, acc + resources, c)
  {
  }

  /** The EndObject of `_embedded`: as written one read follows, with the corrected convention none. */
  lemma {:induction false} EmbeddedEndStep(t: seq<Token>, q: int, acc: seq<Resource>, c: Convention)
    requires 0 <= q && q + 1 < |t| && t[q + 1] == EndObject
    ensures EmbeddedLoop(t, q, acc, c) == Success((acc, if c == AsWritten then q + 2 else q + 1))
  {
  }

  /** A single embedded resource gets the rel it was embedded under. */
  lemma {:induction false} EmbeddedObjectStep(t: seq<Token>, v: int, rel: string, c: Convention, resource: Resource, e: int)
    requires 0 <= v < |t| && t[v] == StartObject && ReadResource(t, v, c) == Success((resource, e))
    ensures HalReader.EmbeddedRel(t, v, rel, c) == Success(([resource.(rel := Some(rel))], e))
  {
  }

  /** An array of embedded resources: its elements are read from the token after the StartArray. */
  lemma {:induction false} EmbeddedArrayStep(t: seq<Token>, v: int, rel: string, c: Convention)
    requires 0 <= v && v + 1 < |t| && t[v] == StartArray
    ensures HalReader.EmbeddedRel(t, v, rel, c) == EmbeddedArray(t, v + 1, rel, [], c)
  {
  }

  /** One element of an array of embedded resources. */
  lemma {:induction false} ArrayElementStep(t: seq<Token>, j: int, rel: string, acc: seq<Resource>, c: Convention, resource: Resource, e: int, next: int)
    requires 0 <= j < |t| && t[j] != EndArray && ReadResource(t, j, c) == Success((resource, e))
    requires c == EndOnLast ==> e + 1 < |t|
    requires next == if c == AsWritten then e else e + 1
    ensures EmbeddedArray(t, j, rel, acc, c) == EmbeddedArray(t, next, rel, acc + [resource.(rel := Some(rel))], c)
  {
  }

  /** The EndArray ends the array: as written one read follows, with the corrected convention none. */
  lemma {:induction false} ArrayEndStep(t: seq<Token>, j: int, rel: string, acc: seq<Resource>, c: Convention)
    requires 0 <= j < |t| && t[j] == EndArray && (c == AsWritten ==> j + 1 < |t|)
    ensures EmbeddedArray(t, j, rel, acc, c) == Success((acc, if c == AsWritten then j + 1 else j))
  {
  }

  // ---------------------------------------------------------------------
  // Where the parts of a written document lie
  //
  // The lemmas from here on take the indices they speak about as
  // parameters fixed by equalities in their requires, so that what one
  // lemma ensures is literally what the next one requires.

  /** An occurrence of `a + b`: `a` at `i`, `b` at `j`. */
  lemma {:induction false} Split(t: seq<Token>, i: int, a: seq<Token>, b: seq<Token>, j: int)
    requires At(t, i, a + b) && j == i + |a|
    ensures At(t, i, a) && At(t, j, b)
  {
    AtSplit(t, i, a, b);
  }

  /** The first token of an occurrence, and the rest from `j` on. */
  lemma {:induction false} FirstToken(t: seq<Token>, i: int, x: Token, rest: seq<Token>, j: int)
    requires At(t, i, [x] + rest) && j == i + 1
    ensures 0 <= i < |t| && t[i] == x && At(t, j, rest)
  {
    AtSplit(t, i, [x], rest);
    AtToken(t, i, x);
  }

  /** An occurrence of a document: its StartObject, its members from `m` on, its EndObject at `close`. */
  lemma {:induction false} DocumentLayout(t: seq<Token>, i: int, d: Doc, m: int, close: int)
    requires At(t, i, Encode(d)) && m == i + 1 && close == i + 1 + |MembersTokens(d)|
    ensures 0 <= i && close < |t| && t[i] == StartObject
    ensures At(t, m, MembersTokens(d)) && t[close] == EndObject
  {
    AtContainer(t, i, StartObject, MembersTokens(d), EndObject);
  }

  /** The state properties come first among the members, then links from `l` on and embedded resources from `e` on. */
  lemma {:induction false} MembersLayout(t: seq<Token>, i: int, d: Doc, l: int, e: int)
    requires At(t, i, MembersTokens(d))
    requires l == i + |MemberTokens(d.properties)| && e == l + |LinksTokens(d.links)|
    ensures At(t, i, MemberTokens(d.properties)) && At(t, l, LinksTokens(d.links)) && At(t, e, EmbeddedTokens(d.embedded))
  {
    Split(t, i, MemberTokens(d.properties) + LinksTokens(d.links), EmbeddedTokens(d.embedded), e);
    Split(t, i, MemberTokens(d.properties), LinksTokens(d.links), l);
  }

  /** An occurrence of a container: its opening token, then its body and closing token from `j` on. */
  lemma {:induction false} OpenLayout(t: seq<Token>, v: int, open: Token, body: seq<Token>, close: Token, j: int)
    requires At(t, v, [open] + body + [close]) && j == v + 1
    ensures 0 <= v < |t| && t[v] == open && At(t, j, body + [close])
  {
    AppendAssoc([open], body, [close]);
    FirstToken(t, v, open, body + [close], j);
  }

  /** An entry of a list, then the rest of the list and the closing token from `j` on. */
  lemma {:induction false} RelsLayout(t: seq<Token>, i: int, head: seq<Token>, rest: seq<Token>, close: Token, j: int)
    requires At(t, i, head + rest + [close]) && j == i + |head|
    ensures At(t, i, head) && At(t, j, rest + [close])
  {
    AppendAssoc(head, rest, [close]);
    Split(t, i, head, rest + [close], j);
  }

  /** An empty list: only the closing token. */
  lemma {:induction false} CloseLayout(t: seq<Token>, i: int, rest: seq<Token>, close: Token)
    requires rest == [] && At(t, i, rest + [close])
    ensures 0 <= i < |t| && t[i] == close
  {
    assert rest + [close] == [close];
    AtToken(t, i, close);
  }

  // ---------------------------------------------------------------------
  // State properties: the same under either convention

  lemma {:induction false} PlainTail(ms: seq<JMember>)
    requires ms != [] && PlainProperties(ms)
    ensures ms[0].name != LinksProperty && ms[0].name != EmbeddedProperty
    ensures PlainProperties(ms[1..])
  {
    forall k | 0 <= k < |ms[1..]|
      ensures ms[1..][k].name != LinksProperty && ms[1..][k].name != EmbeddedProperty
    {
      assert ms[1..][k] == ms[k + 1];
    }
  }

  /** The first property of a list: its name, its value ending at `e`, and the rest of the list. */
  lemma {:induction false} PropertyLayout(t: seq<Token>, p: int, ms: seq<JMember>, e: int)
    requires 0 <= p && ms != [] && At(t, p + 1, MemberTokens(ms)) && e == p + 1 + |Tokens(ms[0].value)|
    ensures p + 2 <= e < |t| && t[p + 1] == PropertyName(ms[0].name)
    ensures ValueEnd(t, p + 2) == Some(e) && t[p + 2..e + 1] == Tokens(ms[0].value)
    ensures At(t, e + 1, MemberTokens(ms[1..]))
  {
    Split(t, p + 1, [PropertyName(ms[0].name)] + Tokens(ms[0].value), MemberTokens(ms[1..]), e + 1);
    FirstToken(t, p + 1, PropertyName(ms[0].name), Tokens(ms[0].value), p + 2);
    LoadConsumesOneValue(t, p + 2, ms[0].value);
    AtIsSlice(t, p + 2, Tokens(ms[0].value));
    assert e + 1 == p + 2 + |Tokens(ms[0].value)|;
  }

  /** One plain property: its value is loaded and stored under its name, and the cursor ends on its last token `e`. */
  lemma {:induction false} PropertyIsStored(t: seq<Token>, p: int, res: Resource, ms: seq<JMember>, c: Convention, e: int)
    requires 0 <= p && ms != [] && At(t, p + 1, MemberTokens(ms)) && PlainProperties(ms)
    requires e == p + 1 + |Tokens(ms[0].value)|
    ensures At(t, e + 1, MemberTokens(ms[1..]))
    ensures ResourceLoop(t, p, res, c) ==
            ResourceLoop(t, e, res.(properties := res.properties[ms[0].name := PropertyValue(Tokens(ms[0].value))]), c)
  {
    PlainTail(ms);
    PropertyLayout(t, p, ms, e);
    PropertyStep(t, p, res, c, ms[0].name, e);
  }

  /** Storing a list of properties: the first, then the rest. */
  lemma {:induction false} PropertiesCons(res: Resource, ms: seq<JMember>)
    requires ms != []
    ensures |MemberTokens(ms)| == 1 + |Tokens(ms[0].value)| + |MemberTokens(ms[1..])|
    ensures var res' := res.(properties := res.properties[ms[0].name := PropertyValue(Tokens(ms[0].value))]);
            res.(properties := AddProperties(res.properties, ms)) == res'.(properties := AddProperties(res'.properties, ms[1..]))
  {
  }

  /**
   * The loop stores each plain property it meets, in order, and moves past
   * its value; `end` and `final` name where it gets to and what it holds.
   */
  lemma {:induction false} PropertiesStored(t: seq<Token>, p: int, res: Resource, ms: seq<JMember>, c: Convention, end: int, final: Resource)
    requires 0 <= p && At(t, p + 1, MemberTokens(ms)) && PlainProperties(ms)
    requires end == p + |MemberTokens(ms)| && final == res.(properties := AddProperties(res.properties, ms))
    ensures ResourceLoop(t, p, res, c) == ResourceLoop(t, end, final, c)
    decreases |ms|
  {
    if ms == [] {
      assert final == res;
    } else {
      var e := p + 1 + |Tokens(ms[0].value)|;
      PropertiesCons(res, ms);
      PlainTail(ms);
      PropertyIsStored(t, p, res, ms, c, e);
      PropertiesStored(t, e, res.(properties := res.properties[ms[0].name := PropertyValue(Tokens(ms[0].value))]),
                       ms[1..], c, end, final);
    }
  }

  /** The loop stores each plain property it meets, in order, and moves past its value. */
  lemma {:induction false} PropertiesAreStored(t: seq<Token>, p: int, res: Resource, ms: seq<JMember>, c: Convention)
    requires 0 <= p && At(t, p + 1, MemberTokens(ms)) && PlainProperties(ms)
    ensures ResourceLoop(t, p, res, c) ==
            ResourceLoop(t, p + |MemberTokens(ms)|, res.(properties := AddProperties(res.properties, ms)), c)
  {
    PropertiesStored(t, p, res, ms, c, p + |MemberTokens(ms)|, res.(properties := AddProperties(res.properties, ms)));
  }

  // ---------------------------------------------------------------------
  // Links: the same under either convention

  /** A single link object becomes one link carrying the rel, and the cursor ends on its EndObject. */
  lemma {:induction false} SingleLinkIsRead(t: seq<Token>, v: int, rel: string, ms: seq<JMember>, links: seq<Link>, end: int)
    requires At(t, v, Tokens(JObject(ms)))
    requires links == [Link(Some(rel), Tokens(JObject(ms)))] && end == v + |Tokens(JObject(ms))| - 1
    ensures RelLinks(t, v, rel) == Success((links, end))
  {
    AtContainer(t, v, StartObject, MemberTokens(ms), EndObject);
    LoadConsumesOneValue(t, v, JObject(ms));
    AtIsSlice(t, v, Tokens(JObject(ms)));
  }

  /** An array of links becomes one link per element, none carrying the rel; the cursor ends on its EndArray. */
  lemma {:induction false} LinkArrayIsRead(t: seq<Token>, v: int, rel: string, xs: seq<Json>, links: seq<Link>, end: int)
    requires At(t, v, Tokens(JArray(xs)))
    requires links == ArrayLinks(ItemsAsTokens(xs)) && end == v + |Tokens(JArray(xs))| - 1
    ensures RelLinks(t, v, rel) == Success((links, end))
  {
    AtContainer(t, v, StartArray, ItemTokens(xs), EndArray);
    LoadConsumesOneValue(t, v, JArray(xs));
    ElementsOfWrittenArray(t, v + 1, xs, end);
  }

  /** The links listed under one rel are read, the cursor ending on their last token. */
  lemma {:induction false} RelLinksAreRead(t: seq<Token>, v: int, l: LinkRel, links: seq<Link>, end: int)
    requires At(t, v, RelLinksTokens(l.links))
    requires links == RelLinksOf(l) && end == v + |RelLinksTokens(l.links)| - 1
    ensures RelLinks(t, v, l.rel) == Success((links, end))
  {
    match l.links
    case SingleLink(ms) => SingleLinkIsRead(t, v, l.rel, ms, links, end);
    case LinkArray(xs) => LinkArrayIsRead(t, v, l.rel, xs, links, end);
  }

  /** The first rel of a list of rels, and the rest of the list after its last token `q'`. */
  lemma {:induction false} LinkRelsLayout(t: seq<Token>, q: int, ls: seq<LinkRel>, q': int)
    requires 0 <= q && ls != [] && At(t, q + 1, LinkRelTokens(ls) + [EndObject])
    requires q' == q + 1 + |RelLinksTokens(ls[0].links)|
    ensures At(t, q + 1, [PropertyName(ls[0].rel)] + RelLinksTokens(ls[0].links))
    ensures At(t, q' + 1, LinkRelTokens(ls[1..]) + [EndObject])
  {
    RelsLayout(t, q + 1, [PropertyName(ls[0].rel)] + RelLinksTokens(ls[0].links), LinkRelTokens(ls[1..]), EndObject, q' + 1);
  }

  /** One turn of the `_links` loop reads one rel and appends its links, the cursor ending on the rel's last token `q'`. */
  lemma {:induction false} LinkRelIsRead(t: seq<Token>, q: int, acc: seq<Link>, l: LinkRel, q': int)
    requires 0 <= q && At(t, q + 1, [PropertyName(l.rel)] + RelLinksTokens(l.links))
    requires q' == q + 1 + |RelLinksTokens(l.links)|
    ensures LinksLoop(t, q, acc) == LinksLoop(t, q', acc + RelLinksOf(l))
  {
    FirstToken(t, q + 1, PropertyName(l.rel), RelLinksTokens(l.links), q + 2);
    RelLinksAreRead(t, q + 2, l, RelLinksOf(l), q');
    LinkRelStep(t, q, acc, l.rel, RelLinksOf(l), q');
  }

  /** The `_links` loop reads the first rel of a list and appends its links. */
  lemma {:induction false} FirstLinkRelIsRead(t: seq<Token>, q: int, acc: seq<Link>, ls: seq<LinkRel>, q': int)
    requires 0 <= q && ls != [] && At(t, q + 1, LinkRelTokens(ls) + [EndObject])
    requires q' == q + 1 + |RelLinksTokens(ls[0].links)|
    ensures At(t, q' + 1, LinkRelTokens(ls[1..]) + [EndObject])
    ensures LinksLoop(t, q, acc) == LinksLoop(t, q', acc + RelLinksOf(ls[0]))
  {
    LinkRelsLayout(t, q, ls, q');
    LinkRelIsRead(t, q, acc, ls[0], q');
  }

  /** The links of a list of rels: those of the first, then those of the rest. */
  lemma {:induction false} LinksOfCons(acc: seq<Link>, ls: seq<LinkRel>)
    requires ls != []
    ensures acc + LinksOf(ls) == acc + RelLinksOf(ls[0]) + LinksOf(ls[1..])
    ensures |LinkRelTokens(ls)| == 1 + |RelLinksTokens(ls[0].links)| + |LinkRelTokens(ls[1..])|
  {
    AppendAssoc(acc, RelLinksOf(ls[0]), LinksOf(ls[1..]));
  }

  /** With no rels left, the `_links` loop ends on the EndObject. */
  lemma {:induction false} NoLinkRelsAreRead(t: seq<Token>, q: int, acc: seq<Link>, ls: seq<LinkRel>, links: seq<Link>, end: int)
    requires 0 <= q && ls == [] && At(t, q + 1, LinkRelTokens(ls) + [EndObject])
    requires links == acc + LinksOf(ls) && end == q + 1 + |LinkRelTokens(ls)|
    ensures LinksLoop(t, q, acc) == Success((links, end))
  {
    CloseLayout(t, q + 1, LinkRelTokens(ls), EndObject);
    LinksEndStep(t, q, acc);
    assert acc + LinksOf(ls) == acc;
  }

  /**
   * The `_links` loop collects the links of each rel, in order, and ends
   * on the EndObject; `links` and `end` name what it returns.
   */
  lemma {:induction false} LinkRelsRead(t: seq<Token>, q: int, acc: seq<Link>, ls: seq<LinkRel>, links: seq<Link>, end: int)
    requires 0 <= q && At(t, q + 1, LinkRelTokens(ls) + [EndObject])
    requires links == acc + LinksOf(ls) && end == q + 1 + |LinkRelTokens(ls)|
    ensures LinksLoop(t, q, acc) == Success((links, end))
    decreases |ls|
  {
    if ls == [] {
      NoLinkRelsAreRead(t, q, acc, ls, links, end);
    } else {
      var q' := q + 1 + |RelLinksTokens(ls[0].links)|;
      LinksOfCons(acc, ls);
      FirstLinkRelIsRead(t, q, acc, ls, q');
      LinkRelsRead(t, q', acc + RelLinksOf(ls[0]), ls[1..], links, end);
    }
  }

  /** The `_links` object is read in full, the cursor ending on its EndObject. */
  lemma {:induction false} ReadLinksIsRead(t: seq<Token>, v: int, ls: seq<LinkRel>, links: seq<Link>, end: int)
    requires At(t, v, LinksObjectTokens(ls))
    requires links == LinksOf(ls) && end == v + |LinksObjectTokens(ls)| - 1
    ensures ReadLinks(t, v) == Success((links, end))
  {
    OpenLayout(t, v, StartObject, LinkRelTokens(ls), EndObject, v + 1);
    assert ReadLinks(t, v) == LinksLoop(t, v, []) by { LinksOpenStep(t, v); }
    assert LinksLoop(t, v, []) == Success((links, end)) by {
      assert [] + LinksOf(ls) == LinksOf(ls);
      LinkRelsRead(t, v, [], ls, links, end);
    }
  }

  /** A `_links` property: its name, then the `_links` object, read in full. */
  lemma {:induction false} LinksObjectIsRead(t: seq<Token>, p: int, ls: seq<LinkRel>, end: int)
    requires 0 <= p && ls != [] && At(t, p + 1, LinksTokens(ls)) && end == p + |LinksTokens(ls)|
    ensures p + 2 < |t| && t[p + 1] == PropertyName(LinksProperty)
    ensures ReadLinks(t, p + 2) == Success((LinksOf(ls), end))
  {
    FirstToken(t, p + 1, PropertyName(LinksProperty), LinksObjectTokens(ls), p + 2);
    ReadLinksIsRead(t, p + 2, ls, LinksOf(ls), end);
  }

  /** A `_links` property sets the resource's links to those of its rels. */
  lemma {:induction false} LinksAreRead(t: seq<Token>, p: int, res: Resource, ls: seq<LinkRel>, c: Convention, end: int, final: Resource)
    requires 0 <= p && res.links == [] && At(t, p + 1, LinksTokens(ls))
    requires end == p + |LinksTokens(ls)| && final == res.(links := LinksOf(ls))
    ensures ResourceLoop(t, p, res, c) == ResourceLoop(t, end, final, c)
  {
    if ls == [] {
      assert final == res;
    } else {
      LinksObjectIsRead(t, p, ls, end);
      LinksStep(t, p, res, c, LinksOf(ls), end);
    }
  }

  // ---------------------------------------------------------------------
  // Whole documents

  /** A document starts with its StartObject. */
  lemma {:induction false} DocumentStart(t: seq<Token>, i: int, d: Doc)
    requires At(t, i, Encode(d))
    ensures 0 <= i < |t| && t[i] == StartObject
  {
    DocumentLayout(t, i, d, i + 1, i + 1 + |MembersTokens(d)|);
  }

  /**
   * A well-formed document is read in full, wherever it occurs in the token
   * stream: with every reader ending on its value's last token always, and
   * as written when it embeds no resources. The cursor ends on the
   * document's EndObject, or one past it as written.
   */
  lemma {:induction false} DocumentIsRead(t: seq<Token>, i: int, d: Doc, c: Convention, end: int)
    requires At(t, i, Encode(d)) && WellFormed(d) && (c == EndOnLast || d.embedded == [])
    requires end == if c == AsWritten then i + |Encode(d)| else i + |Encode(d)| - 1
    ensures ReadResource(t, i, c) == Success((Decode(d), end))
    decreases d, 5
  {
    DocumentBodyIsRead(t, i, d, c, i + |MembersTokens(d)|);
    DocumentEnd(t, i, d, Decode(d), c, i + |MembersTokens(d)|, end);
  }

  /** The EndObject after a document's members ends the resource. */
  lemma {:induction false} DocumentEnd(t: seq<Token>, i: int, d: Doc, res: Resource, c: Convention, last: int, end: int)
    requires At(t, i, Encode(d)) && last == i + |MembersTokens(d)|
    requires end == if c == AsWritten then i + |Encode(d)| else i + |Encode(d)| - 1
    ensures 0 <= last < |t|
    ensures ResourceLoop(t, last, res, c) == Success((res, end))
  {
    DocumentLayout(t, i, d, i + 1, last + 1);
    assert end == if c == AsWritten then last + 2 else last + 1;
    EndObjectStep(t, last, res, c);
  }

  /** A document's members are read into the resource it means, the cursor ending on the last of them. */
  lemma {:induction false} DocumentBodyIsRead(t: seq<Token>, i: int, d: Doc, c: Convention, last: int)
    requires At(t, i, Encode(d)) && WellFormed(d) && (c == EndOnLast || d.embedded == [])
    requires last == i + |MembersTokens(d)|
    ensures 0 <= last < |t|
    ensures ReadResource(t, i, c) == ResourceLoop(t, last, Decode(d), c)
    decreases d, 4
  {
    DocumentLayout(t, i, d, i + 1, last + 1);
    ResourceStart(t, i, c);
    MembersAreRead(t, i, d, c, last);
  }

  /** The members of a document are read into the resource the document means. */
  lemma {:induction false} MembersAreRead(t: seq<Token>, p: int, d: Doc, c: Convention, last: int)
    requires 0 <= p && At(t, p + 1, MembersTokens(d)) && WellFormed(d) && (c == EndOnLast || d.embedded == [])
    requires last == p + |MembersTokens(d)|
    ensures ResourceLoop(t, p, EmptyResource, c) == ResourceLoop(t, last, Decode(d), c)
    decreases d, 3
  {
    var p1 := p + |MemberTokens(d.properties)|;
    var props := EmptyResource.(properties := AddProperties(map[], d.properties));
    StatePartIsRead(t, p, d, c, p1, props);
    TailPartIsRead(t, p, d, c, p1, props, last);
  }

  /** The state properties of a document are stored first. */
  lemma {:induction false} StatePartIsRead(t: seq<Token>, p: int, d: Doc, c: Convention, p1: int, props: Resource)
    requires 0 <= p && At(t, p + 1, MembersTokens(d)) && WellFormed(d)
    requires p1 == p + |MemberTokens(d.properties)| && props == EmptyResource.(properties := AddProperties(map[], d.properties))
    ensures ResourceLoop(t, p, EmptyResource, c) == ResourceLoop(t, p1, props, c)
  {
    MembersLayout(t, p + 1, d, p1 + 1, p1 + |LinksTokens(d.links)| + 1);
    assert EmptyResource.properties == map[];
    PropertiesStored(t, p, EmptyResource, d.properties, c, p1, props);
  }

  /** Where the links and the embedded resources of a document lie. */
  lemma {:induction false} TailLayout(t: seq<Token>, p: int, d: Doc, p1: int)
    requires 0 <= p && At(t, p + 1, MembersTokens(d)) && p1 == p + |MemberTokens(d.properties)|
    ensures At(t, p1 + 1, LinksTokens(d.links)) && At(t, p1 + |LinksTokens(d.links)| + 1, EmbeddedTokens(d.embedded))
  {
    MembersLayout(t, p + 1, d, p1 + 1, p1 + |LinksTokens(d.links)| + 1);
  }

  /** A document's members are its state properties, its links and its embedded resources, and so is its resource. */
  lemma {:induction false} DocumentParts(d: Doc)
    ensures |MembersTokens(d)| == |MemberTokens(d.properties)| + |LinksTokens(d.links)| + |EmbeddedTokens(d.embedded)|
    ensures Decode(d) == EmptyResource.(properties := AddProperties(map[], d.properties))
                                      .(links := LinksOf(d.links)).(embedded := EmbeddedOf(d.embedded))
  {
  }

  /** Then the links and embedded resources complete the resource the document means. */
  lemma {:induction false} TailPartIsRead(t: seq<Token>, p: int, d: Doc, c: Convention, p1: int, props: Resource, last: int)
    requires 0 <= p && At(t, p + 1, MembersTokens(d)) && WellFormed(d) && (c == EndOnLast || d.embedded == [])
    requires p1 == p + |MemberTokens(d.properties)| && props == EmptyResource.(properties := AddProperties(map[], d.properties))
    requires last == p + |MembersTokens(d)|
    ensures ResourceLoop(t, p1, props, c) == ResourceLoop(t, last, Decode(d), c)
    decreases d, 2
  {
    TailLayout(t, p, d, p1);
    var ls, es := d.links, d.embedded;
    assert last == p1 + |LinksTokens(ls)| + |EmbeddedTokens(es)| by {
      DocumentParts(d);
    }
    assert Decode(d) == props.(links := LinksOf(ls)).(embedded := EmbeddedOf(es)) by {
      DocumentParts(d);
    }
    TailIsRead(t, p1, props, ls, es, c, p1 + |LinksTokens(ls)|, last, Decode(d));
  }

  /** After the state properties, `_links` and then `_embedded` are read. */
  lemma {:induction false} TailIsRead(t: seq<Token>, p: int, res: Resource, ls: seq<LinkRel>, es: seq<EmbeddedRel>, c: Convention,
                                      m: int, end: int, final: Resource)
    requires 0 <= p && res.links == [] && res.embedded == []
    requires m == p + |LinksTokens(ls)| && At(t, p + 1, LinksTokens(ls)) && At(t, m + 1, EmbeddedTokens(es))
    requires WellFormedRels(es) && (c == EndOnLast || es == [])
    requires end == m + |EmbeddedTokens(es)|
    requires final == res.(links := LinksOf(ls)).(embedded := EmbeddedOf(es))
    ensures ResourceLoop(t, p, res, c) == ResourceLoop(t, end, final, c)
    decreases es, 12
  {
    var mid := res.(links := LinksOf(ls));
    assert ResourceLoop(t, p, res, c) == ResourceLoop(t, m, mid, c) by {
      LinksAreRead(t, p, res, ls, c, m, mid);
    }
    assert ResourceLoop(t, m, mid, c) == ResourceLoop(t, end, final, c) by {
      EmbeddedPartIsRead(t, m, mid, es, c, end, final);
    }
  }

  /** An `_embedded` property, if the document has one, sets the resource's embedded resources. */
  lemma {:induction false} EmbeddedPartIsRead(t: seq<Token>, p: int, res: Resource, es: seq<EmbeddedRel>, c: Convention,
                                              end: int, final: Resource)
    requires 0 <= p && res.embedded == [] && At(t, p + 1, EmbeddedTokens(es))
    requires WellFormedRels(es) && (c == EndOnLast || es == [])
    requires end == p + |EmbeddedTokens(es)| && final == res.(embedded := EmbeddedOf(es))
    ensures ResourceLoop(t, p, res, c) == ResourceLoop(t, end, final, c)
    decreases es, 11
  {
    if es == [] {
      assert final == res;
    } else {
      EmbeddedObjectIsRead(t, p, es, end);
      EmbeddedStep(t, p, res, c, EmbeddedOf(es), end);
    }
  }

  /** An `_embedded` property: its name, then the `_embedded` object, read in full. */
  lemma {:induction false} EmbeddedObjectIsRead(t: seq<Token>, p: int, es: seq<EmbeddedRel>, end: int)
    requires 0 <= p && es != [] && At(t, p + 1, EmbeddedTokens(es)) && WellFormedRels(es)
    requires end == p + |EmbeddedTokens(es)|
    ensures p + 2 < |t| && t[p + 1] == PropertyName(EmbeddedProperty)
    ensures ReadEmbedded(t, p + 2, EndOnLast) == Success((EmbeddedOf(es), end))
    decreases es, 10
  {
    FirstToken(t, p + 1, PropertyName(EmbeddedProperty), EmbeddedObjectTokens(es), p + 2);
    ReadEmbeddedIsRead(t, p + 2, es, EmbeddedOf(es), end);
  }

  /** The `_embedded` object is read in full, the cursor ending on its EndObject. */
  lemma {:induction false} ReadEmbeddedIsRead(t: seq<Token>, v: int, es: seq<EmbeddedRel>, resources: seq<Resource>, end: int)
    requires At(t, v, EmbeddedObjectTokens(es)) && WellFormedRels(es)
    requires resources == EmbeddedOf(es) && end == v + |EmbeddedObjectTokens(es)| - 1
    ensures ReadEmbedded(t, v, EndOnLast) == Success((resources, end))
    decreases es, 9
  {
    OpenLayout(t, v, StartObject, EmbeddedRelTokens(es), EndObject, v + 1);
    EmbeddedOpenStep(t, v, EndOnLast);
    assert [] + EmbeddedOf(es) == EmbeddedOf(es);
    EmbeddedRelsRead(t, v, [], es, resources, end);
  }

  /** The first rel of a list of embedded rels, and the rest of the list after its last token `q'`. */
  lemma {:induction false} EmbeddedRelsLayout(t: seq<Token>, q: int, es: seq<EmbeddedRel>, q': int)
    requires 0 <= q && es != [] && At(t, q + 1, EmbeddedRelTokens(es) + [EndObject])
    requires q' == q + 1 + |RelDocsTokens(es[0].resources)|
    ensures At(t, q + 1, [PropertyName(es[0].rel)] + RelDocsTokens(es[0].resources))
    ensures At(t, q' + 1, EmbeddedRelTokens(es[1..]) + [EndObject])
  {
    RelsLayout(t, q + 1, [PropertyName(es[0].rel)] + RelDocsTokens(es[0].resources), EmbeddedRelTokens(es[1..]), EndObject, q' + 1);
  }

  /** The resources of a list of embedded rels: those of the first, then those of the rest. */
  lemma {:induction false} EmbeddedOfCons(acc: seq<Resource>, es: seq<EmbeddedRel>)
    requires es != []
    ensures acc + EmbeddedOf(es) == acc + RelDocsOf(es[0]) + EmbeddedOf(es[1..])
    ensures |EmbeddedRelTokens(es)| == 1 + |RelDocsTokens(es[0].resources)| + |EmbeddedRelTokens(es[1..])|
  {
    AppendAssoc(acc, RelDocsOf(es[0]), EmbeddedOf(es[1..]));
  }

  /** With no rels left, the `_embedded` loop ends on the EndObject. */
  lemma {:induction false} NoEmbeddedRelsAreRead(t: seq<Token>, q: int, acc: seq<Resource>, es: seq<EmbeddedRel>, resources: seq<Resource>, end: int)
    requires 0 <= q && es == [] && At(t, q + 1, EmbeddedRelTokens(es) + [EndObject])
    requires resources == acc + EmbeddedOf(es) && end == q + 1 + |EmbeddedRelTokens(es)|
    ensures EmbeddedLoop(t, q, acc, EndOnLast) == Success((resources, end))
  {
    CloseLayout(t, q + 1, EmbeddedRelTokens(es), EndObject);
    EmbeddedEndStep(t, q, acc, EndOnLast);
    assert acc + EmbeddedOf(es) == acc;
  }

  /**
   * The `_embedded` loop collects the resources of each rel, in order, and
   * ends on the EndObject; `resources` and `end` name what it returns.
   */
  lemma {:induction false} EmbeddedRelsRead(t: seq<Token>, q: int, acc: seq<Resource>, es: seq<EmbeddedRel>,
                                            resources: seq<Resource>, end: int)
    requires 0 <= q && At(t, q + 1, EmbeddedRelTokens(es) + [EndObject]) && WellFormedRels(es)
    requires resources == acc + EmbeddedOf(es) && end == q + 1 + |EmbeddedRelTokens(es)|
    ensures EmbeddedLoop(t, q, acc, EndOnLast) == Success((resources, end))
    decreases es, 8
  {
    if es == [] {
      NoEmbeddedRelsAreRead(t, q, acc, es, resources, end);
    } else {
      var q' := q + 1 + |RelDocsTokens(es[0].resources)|;
      EmbeddedOfCons(acc, es);
      FirstEmbeddedRelIsRead(t, q, acc, es, q');
      EmbeddedRelsRead(t, q', acc + RelDocsOf(es[0]), es[1..], resources, end);
    }
  }

  /** The `_embedded` loop reads the first rel of a list and appends its resources. */
  lemma {:induction false} FirstEmbeddedRelIsRead(t: seq<Token>, q: int, acc: seq<Resource>, es: seq<EmbeddedRel>, q': int)
    requires 0 <= q && es != [] && At(t, q + 1, EmbeddedRelTokens(es) + [EndObject]) && WellFormedRels(es)
    requires q' == q + 1 + |RelDocsTokens(es[0].resources)|
    ensures At(t, q' + 1, EmbeddedRelTokens(es[1..]) + [EndObject])
    ensures EmbeddedLoop(t, q, acc, EndOnLast) == EmbeddedLoop(t, q', acc + RelDocsOf(es[0]), EndOnLast)
    decreases es, 7
  {
    EmbeddedRelsLayout(t, q, es, q');
    EmbeddedRelIsRead(t, q, acc, es[0], q');
  }

  /** One turn of the `_embedded` loop reads one rel and appends its resources, the cursor ending on the rel's last token `q'`. */
  lemma {:induction false} EmbeddedRelIsRead(t: seq<Token>, q: int, acc: seq<Resource>, e: EmbeddedRel, q': int)
    requires 0 <= q && At(t, q + 1, [PropertyName(e.rel)] + RelDocsTokens(e.resources)) && WellFormedDocs(e.resources)
    requires q' == q + 1 + |RelDocsTokens(e.resources)|
    ensures EmbeddedLoop(t, q, acc, EndOnLast) == EmbeddedLoop(t, q', acc + RelDocsOf(e), EndOnLast)
    decreases e, 6
  {
    FirstToken(t, q + 1, PropertyName(e.rel), RelDocsTokens(e.resources), q + 2);
    RelDocsAreRead(t, q + 2, e, RelDocsOf(e), q');
    EmbeddedRelStep(t, q, acc, EndOnLast, e.rel, RelDocsOf(e), q');
  }

  /** The resources under one rel are read, each tagged with the rel, the cursor ending on their last token. */
  lemma {:induction false} RelDocsAreRead(t: seq<Token>, v: int, e: EmbeddedRel, resources: seq<Resource>, end: int)
    requires At(t, v, RelDocsTokens(e.resources)) && WellFormedDocs(e.resources)
    requires resources == RelDocsOf(e) && end == v + |RelDocsTokens(e.resources)| - 1
    ensures HalReader.EmbeddedRel(t, v, e.rel, EndOnLast) == Success((resources, end))
    decreases e, 5
  {
    match e.resources
    case SingleDoc(d) =>
      DocumentStart(t, v, d);
      DocumentIsRead(t, v, d, EndOnLast, end);
      EmbeddedObjectStep(t, v, e.rel, EndOnLast, Decode(d), end);
    case DocArray(ds) =>
      OpenLayout(t, v, StartArray, DocsTokens(ds), EndArray, v + 1);
      EmbeddedArrayStep(t, v, e.rel, EndOnLast);
      assert [] + DecodeAll(ds, e.rel) == DecodeAll(ds, e.rel);
      DocListRead(t, v + 1, e.rel, [], ds, resources, end);
  }

  /** The resources of a list of documents: the first, then the rest. */
  lemma {:induction false} DecodeAllCons(acc: seq<Resource>, ds: seq<Doc>, rel: string)
    requires ds != []
    ensures acc + DecodeAll(ds, rel) == acc + [Decode(ds[0]).(rel := Some(rel))] + DecodeAll(ds[1..], rel)
    ensures |DocsTokens(ds)| == |Encode(ds[0])| + |DocsTokens(ds[1..])|
  {
    AppendAssoc(acc, [Decode(ds[0]).(rel := Some(rel))], DecodeAll(ds[1..], rel));
  }

  /** With no documents left, the array ends on its EndArray. */
  lemma {:induction false} NoDocsAreRead(t: seq<Token>, j: int, rel: string, acc: seq<Resource>, ds: seq<Doc>, resources: seq<Resource>, end: int)
    requires ds == [] && At(t, j, DocsTokens(ds) + [EndArray])
    requires resources == acc + DecodeAll(ds, rel) && end == j + |DocsTokens(ds)|
    ensures EmbeddedArray(t, j, rel, acc, EndOnLast) == Success((resources, end))
  {
    CloseLayout(t, j, DocsTokens(ds), EndArray);
    ArrayEndStep(t, j, rel, acc, EndOnLast);
    assert acc + DecodeAll(ds, rel) == acc;
  }

  /**
   * An array of embedded resources is read element by element, the cursor
   * ending on its EndArray; `resources` and `end` name what it returns.
   */
  lemma {:induction false} DocListRead(t: seq<Token>, j: int, rel: string, acc: seq<Resource>, ds: seq<Doc>,
                                       resources: seq<Resource>, end: int)
    requires At(t, j, DocsTokens(ds) + [EndArray]) && WellFormedList(ds)
    requires resources == acc + DecodeAll(ds, rel) && end == j + |DocsTokens(ds)|
    ensures EmbeddedArray(t, j, rel, acc, EndOnLast) == Success((resources, end))
    decreases ds, 5
  {
    if ds == [] {
      NoDocsAreRead(t, j, rel, acc, ds, resources, end);
    } else {
      var j' := j + |Encode(ds[0])|;
      DecodeAllCons(acc, ds, rel);
      FirstDocIsRead(t, j, rel, acc, ds, j');
      DocListRead(t, j', rel, acc + [Decode(ds[0]).(rel := Some(rel))], ds[1..], resources, end);
    }
  }

  /** One element of an array of embedded resources is read and tagged with the rel; the next starts at `j'`. */
  lemma {:induction false} FirstDocIsRead(t: seq<Token>, j: int, rel: string, acc: seq<Resource>, ds: seq<Doc>, j': int)
    requires At(t, j, DocsTokens(ds) + [EndArray]) && WellFormedList(ds) && ds != []
    requires j' == j + |Encode(ds[0])|
    ensures At(t, j', DocsTokens(ds[1..]) + [EndArray])
    ensures EmbeddedArray(t, j, rel, acc, EndOnLast) ==
            EmbeddedArray(t, j', rel, acc + [Decode(ds[0]).(rel := Some(rel))], EndOnLast)
    decreases ds, 4
  {
    RelsLayout(t, j, Encode(ds[0]), DocsTokens(ds[1..]), EndArray, j');
    DocumentStart(t, j, ds[0]);
    DocumentIsRead(t, j, ds[0], EndOnLast, j' - 1);
    ArrayElementStep(t, j, rel, acc, EndOnLast, Decode(ds[0]), j' - 1, j');
  }

  /**
   * The round trip: a reader reads back any well-formed document a HAL
   * writer wrote, when every reader ends on its value's last token; as
   * written, only a document that embeds no resources.
   */
  lemma {:induction false} ReadWrittenDocument(d: Doc, c: Convention)
    requires WellFormed(d) && (c == EndOnLast || d.embedded == [])
    ensures Read(Encode(d), c) == Success((Decode(d), if c == AsWritten then |Encode(d)| else |Encode(d)| - 1))
  {
    var t := Encode(d);
    AtWhole(t);
    DocumentStart(t, 0, d);
    DocumentIsRead(t, 0, d, c, if c == AsWritten then |Encode(d)| else |Encode(d)| - 1);
    ReadFromStart(t, c);
  }

  /** A document with its closing EndObject cut off: a StartObject, then the members. */
  lemma {:induction false} UnclosedLayout(d: Doc)
    ensures var t := Encode(d)[..|Encode(d)| - 1];
            |t| == 1 + |MembersTokens(d)| && t[0] == StartObject && At(t, 1, MembersTokens(d))
  {
    var t := Encode(d)[..|Encode(d)| - 1];
    assert t == [StartObject] + MembersTokens(d);
    AtWhole(t);
    FirstToken(t, 0, StartObject, MembersTokens(d), 1);
  }

  /**
   * When the tokens end before a resource's closing EndObject, the
   * resource read so far is the result.
   */
  lemma {:induction false} UnclosedResourceIsKept(d: Doc, c: Convention)
    requires WellFormed(d) && d.embedded == []
    ensures var t := Encode(d)[..|Encode(d)| - 1];
            Read(t, c) == Success((Decode(d), |t|))
  {
    var t := Encode(d)[..|Encode(d)| - 1];
    UnclosedLayout(d);
    ResourceStart(t, 0, c);
    MembersAreRead(t, 0, d, c, |MembersTokens(d)|);
    EndOfTokensStep(t, |MembersTokens(d)|, Decode(d), c);
    ReadFromStart(t, c);
  }

  // ---------------------------------------------------------------------
  // Where the cursor handling as written goes wrong

  /** `{"_embedded":{"a":{},"b":{}}}`: one resource embedded under each of two rels. */
  const EmptyDoc: Doc := Doc([], [], [])
  const TwoRels: Doc := Doc([], [], [EmbeddedRel("a", SingleDoc(EmptyDoc)), EmbeddedRel("b", SingleDoc(EmptyDoc))])

  /** The tokens a writer emits for TwoRels. */
  const TwoRelsTokens: seq<Token> :=
    [StartObject, PropertyName(EmbeddedProperty), StartObject,
     PropertyName("a"), StartObject, EndObject,
     PropertyName("b"), StartObject, EndObject,
     EndObject, EndObject]

  /** The empty document is `{}`. */
  lemma EmptyDocWritten()
    ensures Encode(EmptyDoc) == [StartObject, EndObject] && WellFormed(EmptyDoc)
  {
    assert MembersTokens(EmptyDoc) == [];
  }

  /** TwoRels is well formed and written as TwoRelsTokens. */
  lemma TwoRelsWritten()
    ensures Encode(TwoRels) == TwoRelsTokens
    ensures WellFormed(TwoRels)
  {
    EmptyDocWritten();
    var ra := EmbeddedRel("a", SingleDoc(EmptyDoc));
    var rb := EmbeddedRel("b", SingleDoc(EmptyDoc));
    assert TwoRels.embedded == [ra, rb];
    assert [ra, rb][1..] == [rb] && [rb][1..] == [];
    assert WellFormedRels([rb]);
    assert WellFormedRels([ra, rb]);
    assert EmbeddedRelTokens([]) == [];
    assert RelDocsTokens(SingleDoc(EmptyDoc)) == [StartObject, EndObject];
    var tb := EmbeddedRelTokens([rb]);
    assert tb == [PropertyName("b")] + RelDocsTokens(rb.resources) + EmbeddedRelTokens([rb][1..]);
    assert tb == [PropertyName("b"), StartObject, EndObject];
    var tab := EmbeddedRelTokens([ra, rb]);
    assert tab == [PropertyName("a")] + RelDocsTokens(ra.resources) + EmbeddedRelTokens([ra, rb][1..]);
    assert tab == [PropertyName("a"), StartObject, EndObject] + tb;
    assert EmbeddedObjectTokens([ra, rb]) == [StartObject] + tab + [EndObject];
    assert EmbeddedTokens([ra, rb]) == [PropertyName(EmbeddedProperty)] + EmbeddedObjectTokens([ra, rb]);
    assert MemberTokens([]) == [] && LinksTokens([]) == [];
    assert MembersTokens(TwoRels) == [] + [] + EmbeddedTokens([ra, rb]);
  }

  /**
   * As written, the embedded resource under "a" ends the cursor past its
   * EndObject, the `_embedded` loop reads once more and so skips the
   * property name "b", and then meets the StartObject of the second
   * resource where it expects a property name: the read throws. With
   * every reader ending on its value's last token, the same document is
   * read back.
   */
  lemma TwoEmbeddedRelsAsWritten()
    ensures Read(Encode(TwoRels), AsWritten) == Failure(UnexpectedToken(StartObject))
    ensures Read(Encode(TwoRels), EndOnLast) == Success((Decode(TwoRels), |Encode(TwoRels)| - 1))
  {
    TwoRelsWritten();
    var t := TwoRelsTokens;
    var a := EmptyResource.(rel := Some("a"));
    ResourceStart(t, 4, AsWritten);
    EndObjectStep(t, 4, EmptyResource, AsWritten);
    EmbeddedObjectStep(t, 4, "a", AsWritten, EmptyResource, 6);
    EmbeddedRelStep(t, 2, [], AsWritten, "a", [a], 6);
    assert EmbeddedLoop(t, 6, [a], AsWritten) == Failure(UnexpectedToken(StartObject));
    EmbeddedOpenStep(t, 2, AsWritten);
    EmbeddedFailureStep(t, 0, EmptyResource, AsWritten, UnexpectedToken(StartObject));
    ResourceStart(t, 0, AsWritten);
    ReadFromStart(t, AsWritten);
    ReadWrittenDocument(TwoRels, EndOnLast);
  }

  /** `{"_embedded":{},"a":1}`: a state property after the embedded resources. */
  const PropertyAfterEmbedded: seq<Token> :=
    [StartObject, PropertyName(EmbeddedProperty), StartObject, EndObject,
     PropertyName("a"), Primitive("1"), EndObject]

  /**
   * As written, the `_embedded` reader ends past its EndObject, the
   * resource loop reads once more and so skips the property name "a", and
   * the value 1 is an unexpected token. With every reader ending on its
   * value's last token, the property is read.
   */
  lemma PropertyAfterEmbeddedAsWritten()
    ensures Read(PropertyAfterEmbedded, AsWritten) == Failure(UnexpectedToken(Primitive("1")))
    ensures Read(PropertyAfterEmbedded, EndOnLast) ==
            Success((EmptyResource.(properties := map["a" := Some([Primitive("1")])]), 6))
  {
    var t := PropertyAfterEmbedded;
    ReadFromStart(t, AsWritten);
    ReadFromStart(t, EndOnLast);
    ResourceStart(t, 0, AsWritten);
    ResourceStart(t, 0, EndOnLast);
    EmbeddedOpenStep(t, 2, AsWritten);
    EmbeddedOpenStep(t, 2, EndOnLast);
    EmbeddedEndStep(t, 2, [], AsWritten);
    EmbeddedEndStep(t, 2, [], EndOnLast);
    EmbeddedStep(t, 0, EmptyResource, AsWritten, [], 4);
    EmbeddedStep(t, 0, EmptyResource, EndOnLast, [], 3);
    assert EmptyResource.(embedded := []) == EmptyResource;
    assert t[5] == Primitive("1");
    assert ResourceLoop(t, 4, EmptyResource, AsWritten) == Failure(UnexpectedToken(Primitive("1")));
    assert t[4..6] == [PropertyName("a"), Primitive("1")];
    PropertyStep(t, 3, EmptyResource, EndOnLast, "a", 5);
    assert t[5..6] == [Primitive("1")];
    EndObjectStep(t, 5, EmptyResource.(properties := map["a" := Some([Primitive("1")])]), EndOnLast);
  }
}
