/**
 * The JSON token stream the HAL reader consumes, and the part of the JSON
 * library it relies on: a forward-only reader whose cursor stands on one
 * token at a time, and "load the value under the cursor", which consumes
 * one balanced value and leaves the cursor on that value's last token.
 * JSON values themselves are kept opaque: a loaded value is the slice of
 * tokens it spans.
 */
module JsonTokens {
  import opened Wrappers

  /**
   * The token types the reader reports. NoToken is what the reader reports
   * before its first read and after its last; it never occurs in a lexed
   * document.
   */
  datatype Token =
    | NoToken
    | StartObject
    | EndObject
    | StartArray
    | EndArray
    | PropertyName(name: string)
    | Comment
    | Primitive(text: string)
    | Null

  /** The token under a cursor at `pos`: -1 is before the first read, |t| after the last. */
  function TokenAt(t: seq<Token>, pos: int): Token {
    if 0 <= pos < |t| then t[pos] else NoToken
  }

  /** Where one read moves the cursor: one token on, but never past the end. */
  function Next(t: seq<Token>, pos: int): (r: int)
    requires -1 <= pos <= |t|
    ensures r <= |t|
    ensures pos < |t| ==> r == pos + 1
    ensures pos == |t| ==> r == pos
  {
    if pos < |t| then pos + 1 else pos
  }

  /**
   * Scan from `j` for the token that closes the container opened before
   * it, `depth` containers being open; None when the tokens run out first.
   */
  function Close(t: seq<Token>, j: nat, depth: nat): (r: Option<nat>)
    requires depth >= 1
    decreases |t| - j
    ensures r.Some? ==> j <= r.value < |t|
  {
    if j >= |t| then None
    else
      match t[j]
      case StartObject => Close(t, j + 1, depth + 1)
      case StartArray => Close(t, j + 1, depth + 1)
      case EndObject => if depth == 1 then Some(j) else Close(t, j + 1, depth - 1)
      case EndArray => if depth == 1 then Some(j) else Close(t, j + 1, depth - 1)
      case _ => Close(t, j + 1, depth)
  }

  /**
   * Loading the value whose first token is at `i`: the index of its last
   * token. A primitive, a null or a comment is one token; an object or an
   * array runs to its closing token. Loading fails on a token that cannot
   * start a value and when the tokens run out inside the value.
   */
  function ValueEnd(t: seq<Token>, i: int): (r: Option<nat>)
    ensures r.Some? ==> 0 <= i <= r.value < |t|
  {
    if !(0 <= i < |t|) then None
    else
      match t[i]
      case StartObject => Close(t, i + 1, 1)
      case StartArray => Close(t, i + 1, 1)
      case Primitive(_) => Some(i)
      case Null => Some(i)
      case Comment => Some(i)
      case _ => None
  }

  /**
   * The elements of the array whose tokens after the StartArray run from
   * `j` up to its EndArray at `end`, each as the tokens it spans. Comments
   * between elements are dropped.
   */
  function ArrayElements(t: seq<Token>, j: nat, end: nat): seq<seq<Token>>
    requires end <= |t|
    decreases end - j
  {
    if j >= end then []
    else if t[j] == Comment then ArrayElements(t, j + 1, end)
    else
      match ValueEnd(t, j)
      case Some(e) => if e < end then [t[j..e + 1]] + ArrayElements(t, e + 1, end) else []
      case None => []
  }

  /**
   * A forward-only reader over a lexed document. The cursor `pos` is -1
   * before the first read and |tokens| once the tokens are exhausted.
   */
  class JsonReader {
    const tokens: seq<Token>
    var pos: int

    ghost predicate Valid()
      reads this
    {
      -1 <= pos <= |tokens|
    }

    constructor(tokens: seq<Token>)
      ensures this.tokens == tokens && pos == -1
      ensures Valid()
    {
      this.tokens := tokens;
      pos := -1;
    }

    /** The type of the token under the cursor. */
    function TokenType(): Token
      reads this
    {
      TokenAt(tokens, pos)
    }

    /** Move to the next token; false once there is none. */
    method ReadAsync() returns (more: bool)
      requires Valid()
      modifies this
      ensures Valid()
      ensures pos == Next(tokens, old(pos))
      ensures more <==> pos < |tokens|
    {
      if pos < |tokens| {
        pos := pos + 1;
      }
      more := pos < |tokens|;
    }

    /**
     * Load the value under the cursor, leaving the cursor on its last
     * token; None when loading fails.
     */
    method Load() returns (value: Option<seq<Token>>)
      requires Valid()
      modifies this
      ensures Valid()
      ensures value.Some? <==> ValueEnd(tokens, old(pos)).Some?
      ensures value.Some? ==>
        pos == ValueEnd(tokens, old(pos)).value && value.value == tokens[old(pos)..pos + 1]
      ensures value.None? ==> pos == old(pos)
    {
      var e := ValueEnd(tokens, pos);
      if e.None? {
        return None;
      }
      value := Some(tokens[pos..e.value + 1]);
      pos := e.value;
    }
  }

  /** A JSON value, for stating what loading consumes. */
  datatype Json =
    | JNull
    | JPrimitive(text: string)
    | JObject(members: seq<JMember>)
    | JArray(items: seq<Json>)

  datatype JMember = JMember(name: string, value: Json)

  /** The tokens a JSON writer emits for a value. */
  function Tokens(v: Json): (r: seq<Token>)
    decreases v, 1
    ensures |r| >= 1
  {
    match v
    case JNull => [Null]
    case JPrimitive(x) => [Primitive(x)]
    case JObject(ms) => [StartObject] + MemberTokens(ms) + [EndObject]
    case JArray(xs) => [StartArray] + ItemTokens(xs) + [EndArray]
  }

  function MemberTokens(ms: seq<JMember>): seq<Token>
    decreases ms, 0
  {
    if ms == [] then [] else [PropertyName(ms[0].name)] + Tokens(ms[0].value) + MemberTokens(ms[1..])
  }

  function ItemTokens(xs: seq<Json>): seq<Token>
    decreases xs, 0
  {
    if xs == [] then [] else Tokens(xs[0]) + ItemTokens(xs[1..])
  }

  /** `s` occurs in `t` starting at index `i`. */
  predicate At(t: seq<Token>, i: int, s: seq<Token>) {
    0 <= i && i + |s| <= |t| && Occurs(t, i, s)
  }

  /**
   * The tokens of `t` from `i` on are those of `s`. Occurs and TokensMatch
   * state this token by token in two steps, so that a proof sees the
   * tokens of an occurrence only through the lemmas below.
   */
  predicate Occurs(t: seq<Token>, i: int, s: seq<Token>)
    requires 0 <= i && i + |s| <= |t|
    decreases |s|, 1
  {
    TokensMatch(t, i, s)
  }

  predicate TokensMatch(t: seq<Token>, i: int, s: seq<Token>)
    requires 0 <= i && i + |s| <= |t|
    decreases |s|, 0
  {
    s == [] || (t[i] == s[0] && Occurs(t, i + 1, s[1..]))
  }

  /** An occurrence is the slice of `t` that equals `s`. */
  lemma {:induction false} AtIsSlice(t: seq<Token>, i: int, s: seq<Token>)
    requires 0 <= i && i + |s| <= |t|
    ensures At(t, i, s) <==> t[i..i + |s|] == s
    decreases |s|
  {
    assert Occurs(t, i, s) == TokensMatch(t, i, s);
    if s != [] {
      AtIsSlice(t, i + 1, s[1..]);
      assert t[i..i + |s|] == [t[i]] + t[i + 1..i + |s|];
      assert s == [s[0]] + s[1..];
    }
  }

  /** A sequence occurs in itself at index 0. */
  lemma AtWhole(t: seq<Token>)
    ensures At(t, 0, t)
  {
    AtIsSlice(t, 0, t);
    assert t[0..|t|] == t;
  }

  /** Concatenation is associative. */
  lemma AppendAssoc<X>(a: seq<X>, b: seq<X>, c: seq<X>)
    ensures a + b + c == a + (b + c)
  {
  }

  /** An occurrence of `a + b` is an occurrence of `a` followed by one of `b`. */
  lemma AtSplit(t: seq<Token>, i: int, a: seq<Token>, b: seq<Token>)
    requires At(t, i, a + b)
    ensures At(t, i, a) && At(t, i + |a|, b)
  {
    AtIsSlice(t, i, a + b);
    AtIsSlice(t, i, a);
    AtIsSlice(t, i + |a|, b);
    assert t[i..i + |a|] == (a + b)[..|a|];
    assert t[i + |a|..i + |a| + |b|] == (a + b)[|a|..];
  }

  /** An occurrence of a one-token sequence is that token at that index. */
  lemma AtToken(t: seq<Token>, i: int, x: Token)
    requires At(t, i, [x])
    ensures i < |t| && t[i] == x
  {
    AtIsSlice(t, i, [x]);
    assert t[i..i + 1][0] == t[i];
  }

  /** An occurrence of a container's tokens: its opening token, its body, its closing token. */
  lemma AtContainer(t: seq<Token>, i: int, open: Token, body: seq<Token>, close: Token)
    requires At(t, i, [open] + body + [close])
    ensures i + |body| + 1 < |t| && t[i] == open && At(t, i + 1, body) && t[i + 1 + |body|] == close
  {
    AtSplit(t, i, [open] + body, [close]);
    AtSplit(t, i, [open], body);
    AtToken(t, i, open);
    AtToken(t, i + 1 + |body|, close);
  }

  /**
   * Scanning past a whole value inside an open container neither closes
   * that container nor changes the depth.
   */
  lemma {:induction false} CloseSkipsValue(t: seq<Token>, i: nat, v: Json, depth: nat)
    requires depth >= 1 && At(t, i, Tokens(v))
    ensures Close(t, i, depth) == Close(t, i + |Tokens(v)|, depth)
    decreases v, 1
  {
    match v
    case JNull => AtToken(t, i, Null);
    case JPrimitive(x) => AtToken(t, i, Primitive(x));
    case JObject(ms) =>
      var body := MemberTokens(ms);
      AtContainer(t, i, StartObject, body, EndObject);
      CloseSkipsMembers(t, i + 1, ms, depth + 1);
      assert Close(t, i, depth) == Close(t, i + 1, depth + 1);
      assert Close(t, i + 1 + |body|, depth + 1) == Close(t, i + 2 + |body|, depth);
    case JArray(xs) =>
      var body := ItemTokens(xs);
      AtContainer(t, i, StartArray, body, EndArray);
      CloseSkipsItems(t, i + 1, xs, depth + 1);
      assert Close(t, i, depth) == Close(t, i + 1, depth + 1);
      assert Close(t, i + 1 + |body|, depth + 1) == Close(t, i + 2 + |body|, depth);
  }

  lemma {:induction false} CloseSkipsMembers(t: seq<Token>, i: nat, ms: seq<JMember>, depth: nat)
    requires depth >= 1 && At(t, i, MemberTokens(ms))
    ensures Close(t, i, depth) == Close(t, i + |MemberTokens(ms)|, depth)
    decreases ms, 0
  {
    if ms != [] {
      var head := [PropertyName(ms[0].name)];
      AtSplit(t, i, head + Tokens(ms[0].value), MemberTokens(ms[1..]));
      AtSplit(t, i, head, Tokens(ms[0].value));
      AtToken(t, i, PropertyName(ms[0].name));
      CloseSkipsValue(t, i + 1, ms[0].value, depth);
      CloseSkipsMembers(t, i + 1 + |Tokens(ms[0].value)|, ms[1..], depth);
    }
  }

  lemma {:induction false} CloseSkipsItems(t: seq<Token>, i: nat, xs: seq<Json>, depth: nat)
    requires depth >= 1 && At(t, i, ItemTokens(xs))
    ensures Close(t, i, depth) == Close(t, i + |ItemTokens(xs)|, depth)
    decreases xs, 0
  {
    if xs != [] {
      AtSplit(t, i, Tokens(xs[0]), ItemTokens(xs[1..]));
      CloseSkipsValue(t, i, xs[0], depth);
      CloseSkipsItems(t, i + |Tokens(xs[0])|, xs[1..], depth);
    }
  }

  /**
   * Loading consumes exactly one value: wherever the tokens of a value
   * occur, loading from its first token ends on its last.
   */
  lemma LoadConsumesOneValue(t: seq<Token>, i: nat, v: Json)
    requires At(t, i, Tokens(v))
    ensures ValueEnd(t, i) == Some(i + |Tokens(v)| - 1)
  {
    match v
    case JNull => AtToken(t, i, Null);
    case JPrimitive(x) => AtToken(t, i, Primitive(x));
    case JObject(ms) =>
      var body := MemberTokens(ms);
      AtContainer(t, i, StartObject, body, EndObject);
      CloseSkipsMembers(t, i + 1, ms, 1);
    case JArray(xs) =>
      var body := ItemTokens(xs);
      AtContainer(t, i, StartArray, body, EndArray);
      CloseSkipsItems(t, i + 1, xs, 1);
  }

  /** The tokens of each element, in order. */
  function ItemsAsTokens(xs: seq<Json>): (r: seq<seq<Token>>)
    ensures |r| == |xs| && forall k :: 0 <= k < |xs| ==> r[k] == Tokens(xs[k])
  {
    if xs == [] then [] else [Tokens(xs[0])] + ItemsAsTokens(xs[1..])
  }

  /** Splitting an array's content into elements recovers the elements a writer wrote. */
  lemma {:induction false} ElementsOfWrittenArray(t: seq<Token>, j: nat, xs: seq<Json>, end: nat)
    requires end <= |t| && At(t, j, ItemTokens(xs)) && j + |ItemTokens(xs)| == end
    ensures ArrayElements(t, j, end) == ItemsAsTokens(xs)
    decreases xs
  {
    if xs != [] {
      AtSplit(t, j, Tokens(xs[0]), ItemTokens(xs[1..]));
      LoadConsumesOneValue(t, j, xs[0]);
      var e := j + |Tokens(xs[0])| - 1;
      AtIsSlice(t, j, Tokens(xs[0]));
      assert t[j] == Tokens(xs[0])[0] by { assert t[j..j + |Tokens(xs[0])|][0] == t[j]; }
      assert t[j] != Comment by {
        match xs[0]
        case JNull =>
        case JPrimitive(_) =>
        case JObject(_) =>
        case JArray(_) =>
      }
      assert t[j..e + 1] == Tokens(xs[0]);
      ElementsOfWrittenArray(t, e + 1, xs[1..], end);
    }
  }
}
