/**
 JSON documents with their layout: the text a document prints as, and the tokens that
 text stands for. Nothing here knows how the tokenizer works.
 */
module JsonDocument {
  import opened Jsmn

  /** A value, with the white space that surrounds its parts. String and key bodies are
      the raw text between the quotes, escapes included. */
  datatype Doc =
    | Str(body: string)
    | Prim(text: string)
    | Arr(pad: string, items: Items)
    | Obj(pad: string, members: Members)

  datatype Items =
    | NoItems
    | Item(pre: string, value: Doc, post: string, rest: Items)

  datatype Members =
    | NoMembers
    | Member(pre: string, key: string, afterKey: string, preValue: string, value: Doc, post: string, rest: Members)

  // ---------------------------------------------------------------- the text

  function Text(d: Doc): string
    decreases d, 0
  {
    match d
    case Str(body) => Quoted(body)
    case Prim(text) => text
    case Arr(pad, items) => Enclosed("[", pad, ItemsText(items), "]")
    case Obj(pad, members) => Enclosed("{", pad, MembersText(members), "}")
  }

  function ItemsText(items: Items): string
    decreases items, 0
  {
    match items
    case NoItems => ""
    case Item(pre, v, post, rest) => Padded(pre, Text(v), post) + MoreItems(rest)
  }

  function MoreItems(rest: Items): string
    decreases rest, 1
  {
    if rest.NoItems? then "" else "," + ItemsText(rest)
  }

  function MembersText(members: Members): string
    decreases members, 0
  {
    match members
    case NoMembers => ""
    case Member(pre, key, afterKey, preValue, v, post, rest) =>
      Pair(Padded(pre, Quoted(key), afterKey), Padded(preValue, Text(v), post)) + MoreMembers(rest)
  }

  function MoreMembers(rest: Members): string
    decreases rest, 1
  {
    if rest.NoMembers? then "" else "," + MembersText(rest)
  }

  function Quoted(body: string): string {
    "\"" + body + "\""
  }

  function Padded(pre: string, t: string, post: string): string {
    pre + t + post
  }

  function Pair(key: string, value: string): string {
    key + ":" + value
  }

  function Enclosed(open: string, pad: string, inside: string, close: string): string {
    open + Padded(pad, inside, close)
  }

  // ------------------------------------------------------------- its length

  function Len(d: Doc): nat {
    match d
    case Str(body) => |body| + 2
    case Prim(text) => |text|
    case Arr(pad, items) => 2 + |pad| + ItemsLen(items)
    case Obj(pad, members) => 2 + |pad| + MembersLen(members)
  }

  function ItemsLen(items: Items): nat {
    match items
    case NoItems => 0
    case Item(pre, v, post, rest) =>
      |pre| + Len(v) + |post| + if rest.NoItems? then 0 else 1 + ItemsLen(rest)
  }

  function MembersLen(members: Members): nat {
    match members
    case NoMembers => 0
    case Member(pre, key, afterKey, preValue, v, post, rest) =>
      |pre| + (|key| + 2) + |afterKey| + 1 + |preValue| + Len(v) + |post| +
      if rest.NoMembers? then 0 else 1 + MembersLen(rest)
  }

  lemma {:induction false} LenIsLength(d: Doc)
    ensures |Text(d)| == Len(d)
    decreases d
  {
    match d
    case Str(_) =>
    case Prim(_) =>
    case Arr(_, items) => ItemsLenIsLength(items);
    case Obj(_, members) => MembersLenIsLength(members);
  }

  lemma {:induction false} ItemsLenIsLength(items: Items)
    ensures |ItemsText(items)| == ItemsLen(items)
    decreases items
  {
    if items.Item? {
      LenIsLength(items.value);
      ItemsLenIsLength(items.rest);
    }
  }

  lemma {:induction false} MembersLenIsLength(members: Members)
    ensures |MembersText(members)| == MembersLen(members)
    decreases members
  {
    if members.Member? {
      LenIsLength(members.value);
      MembersLenIsLength(members.rest);
    }
  }

  // -------------------------------------------------------------- the tokens

  function ItemCount(items: Items): nat {
    match items
    case NoItems => 0
    case Item(_, _, _, rest) => 1 + ItemCount(rest)
  }

  function MemberCount(members: Members): nat {
    match members
    case NoMembers => 0
    case Member(_, _, _, _, _, _, rest) => 1 + MemberCount(rest)
  }

  /** Where the value of the first member starts, when the member's text starts at `p`. */
  function ValueStart(m: Members, p: nat): nat
    requires m.Member?
  {
    p + |m.pre| + |m.key| + 2 + |m.afterKey| + 1 + |m.preValue|
  }

  /** Where the text after the first item starts: past its comma, if there is one. */
  function NextItem(m: Items, p: nat): nat
    requires m.Item?
  {
    p + |m.pre| + Len(m.value) + |m.post| + if m.rest.NoItems? then 0 else 1
  }

  function NextMember(m: Members, p: nat): nat
    requires m.Member?
  {
    ValueStart(m, p) + Len(m.value) + |m.post| + if m.rest.NoMembers? then 0 else 1
  }

  /** The token that stands for the value itself. */
  function HeadToken(d: Doc, p: nat): Token {
    match d
    case Str(body) => Token(String, p + 1, p + 1 + |body|, 0)
    case Prim(text) => Token(Primitive, p, p + |text|, 0)
    case Arr(_, items) => Token(Array, p, p + Len(d), ItemCount(items))
    case Obj(_, members) => Token(Object, p, p + Len(d), MemberCount(members))
  }

  function KeyToken(m: Members, p: nat): Token
    requires m.Member?
  {
    Token(String, p + |m.pre| + 1, p + |m.pre| + 1 + |m.key|, 1)
  }

  /** The preorder flattening of a value whose text starts at `p`. */
  function TokensOf(d: Doc, p: nat): (ts: seq<Token>)
    ensures |ts| >= 1 && ts[0] == HeadToken(d, p)
    decreases d
  {
    match d
    case Str(_) => [HeadToken(d, p)]
    case Prim(_) => [HeadToken(d, p)]
    case Arr(pad, items) => [HeadToken(d, p)] + ItemTokens(items, p + 1 + |pad|)
    case Obj(pad, members) => [HeadToken(d, p)] + MemberTokens(members, p + 1 + |pad|)
  }

  function ItemTokens(items: Items, p: nat): seq<Token>
    decreases items
  {
    match items
    case NoItems => []
    case Item(pre, v, _, rest) => TokensOf(v, p + |pre|) + ItemTokens(rest, NextItem(items, p))
  }

  function MemberTokens(members: Members, p: nat): seq<Token>
    decreases members
  {
    match members
    case NoMembers => []
    case Member(_, _, _, _, v, _, rest) =>
      [KeyToken(members, p)] + (TokensOf(v, ValueStart(members, p)) + MemberTokens(rest, NextMember(members, p)))
  }

  /** How many tokens a value takes, wherever it stands. */
  function TokenCount(d: Doc): (n: nat)
    ensures n >= 1
  {
    match d
    case Str(_) => 1
    case Prim(_) => 1
    case Arr(_, items) => 1 + ItemTokenCount(items)
    case Obj(_, members) => 1 + MemberTokenCount(members)
  }

  function ItemTokenCount(items: Items): nat {
    match items
    case NoItems => 0
    case Item(_, v, _, rest) => TokenCount(v) + ItemTokenCount(rest)
  }

  function MemberTokenCount(members: Members): nat {
    match members
    case NoMembers => 0
    case Member(_, _, _, _, v, _, rest) => 1 + TokenCount(v) + MemberTokenCount(rest)
  }

  lemma {:induction false} TokenCountIsLength(d: Doc, p: nat)
    ensures |TokensOf(d, p)| == TokenCount(d)
    decreases d
  {
    match d
    case Str(_) =>
    case Prim(_) =>
    case Arr(pad, items) => ItemTokenCountIsLength(items, p + 1 + |pad|);
    case Obj(pad, members) => MemberTokenCountIsLength(members, p + 1 + |pad|);
  }

  lemma {:induction false} ItemTokenCountIsLength(items: Items, p: nat)
    ensures |ItemTokens(items, p)| == ItemTokenCount(items)
    decreases items
  {
    if items.Item? {
      TokenCountIsLength(items.value, p + |items.pre|);
      ItemTokenCountIsLength(items.rest, NextItem(items, p));
    }
  }

  lemma {:induction false} MemberTokenCountIsLength(members: Members, p: nat)
    ensures |MemberTokens(members, p)| == MemberTokenCount(members)
    decreases members
  {
    if members.Member? {
      TokenCountIsLength(members.value, ValueStart(members, p));
      MemberTokenCountIsLength(members.rest, NextMember(members, p));
    }
  }

  // ------------------------------------------------------- what JSON allows

  predicate White(c: char) {
    c in {' ', '\t', '\n', '\r'}
  }

  predicate HexDigit(c: char) {
    '0' <= c <= '9' || 'a' <= c <= 'f' || 'A' <= c <= 'F'
  }

  /** What may follow a backslash on its own. */
  predicate Escapable(c: char) {
    c in {'\"', '\\', '/', 'b', 'f', 'n', 'r', 't'}
  }

  /** What a number, true, false or null may begin with and be made of: nothing that is
      white space or separates values. */
  predicate OpensScalar(c: char) {
    c == '-' || '0' <= c <= '9' || c in {'t', 'f', 'n'}
  }

  predicate ScalarChar(c: char) {
    ' ' < c <= '~' && c !in {',', ']', '}'}
  }

  predicate Blank(s: string) {
    forall i :: 0 <= i < |s| ==> White(s[i])
  }

  /** Every quote and backslash escaped, every escape complete, no NUL. */
  predicate StringBody(s: string) {
    StringBodyFrom(s, 0)
  }

  predicate StringBodyFrom(s: string, i: nat)
    requires i <= |s|
    decreases |s| - i
  {
    if i == |s| then true
    else if s[i] == '\\' then
      i + 1 < |s| &&
      if s[i + 1] == 'u' then
        i + 6 <= |s| && HexDigit(s[i + 2]) && HexDigit(s[i + 3]) && HexDigit(s[i + 4]) && HexDigit(s[i + 5]) &&
        StringBodyFrom(s, i + 6)
      else Escapable(s[i + 1]) && StringBodyFrom(s, i + 2)
    else s[i] != '\"' && s[i] != '\0' && StringBodyFrom(s, i + 1)
  }

  /** Covers every JSON number, true, false and null. */
  predicate PrimitiveBody(s: string) {
    s != [] && OpensScalar(s[0]) && forall i :: 0 <= i < |s| ==> ScalarChar(s[i])
  }

  predicate WellFormed(d: Doc) {
    match d
    case Str(body) => StringBody(body)
    case Prim(text) => PrimitiveBody(text)
    case Arr(pad, items) => Blank(pad) && ItemsWellFormed(items)
    case Obj(pad, members) => Blank(pad) && MembersWellFormed(members)
  }

  predicate ItemsWellFormed(items: Items) {
    match items
    case NoItems => true
    case Item(pre, v, post, rest) => Blank(pre) && WellFormed(v) && Blank(post) && ItemsWellFormed(rest)
  }

  predicate MembersWellFormed(members: Members) {
    match members
    case NoMembers => true
    case Member(pre, key, afterKey, preValue, v, post, rest) =>
      && Blank(pre) && StringBody(key) && Blank(afterKey) && Blank(preValue)
      && WellFormed(v) && Blank(post) && MembersWellFormed(rest)
  }

  // ------------------------------------------------------ text inside a text

  /** `t` stands at position `p` of `js`. */
  predicate At(js: string, p: nat, t: string) {
    && p + |t| <= |js|
    && forall i {:trigger t[i]} :: 0 <= i < |t| ==> js[p + i] == t[i]
  }

  lemma AtSplit(js: string, p: nat, a: string, b: string)
    requires At(js, p, a + b)
    ensures At(js, p, a) && At(js, p + |a|, b)
  {
    forall i | 0 <= i < |a| ensures js[p + i] == a[i] {
      assert (a + b)[i] == a[i];
    }
    forall i | 0 <= i < |b| ensures js[p + |a| + i] == b[i] {
      assert (a + b)[|a| + i] == b[i];
    }
  }

  lemma AtIndex(js: string, p: nat, t: string, i: nat)
    requires At(js, p, t) && i < |t|
    ensures js[p + i] == t[i]
  {
  }
}
