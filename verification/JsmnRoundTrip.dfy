/**
 Printing a document and tokenizing it gives back its preorder flattening, at any
 nesting and with any white space.
 */
module JsmnRoundTrip {
  import opened Jsmn
  import opened JsonDocument

  // ================================================== the document in the text
  //
  // `Laid` says what the tokenizer needs to find at each position; `TextIsLaid` that a
  // printed document provides it.

  predicate BlankRange(js: string, a: nat, b: nat)
    decreases b - a
  {
    a <= b <= |js| && (a == b || (IsSpace(js[a]) && BlankRange(js, a + 1, b)))
  }

  predicate CharAt(js: string, p: nat, c: char) {
    p < |js| && js[p] == c
  }

  /** A quoted text of `n` characters, quotes excluded. */
  predicate StringAt(js: string, p: nat, n: nat) {
    CharAt(js, p, '\"') && ScanString(js, p + 1) == Found(p + 1 + n)
  }

  predicate PrimitiveAt(js: string, p: nat, n: nat) {
    p < |js| && StartsPrimitive(js[p]) && ScanPrimitive(js, p) == Found(p + n)
  }

  predicate Laid(js: string, p: nat, d: Doc)
    decreases d
  {
    match d
    case Str(body) => StringAt(js, p, |body|)
    case Prim(text) => PrimitiveAt(js, p, |text|)
    case Arr(pad, items) =>
      CharAt(js, p, '[') && BlankRange(js, p + 1, p + 1 + |pad|) && LaidItems(js, p + 1 + |pad|, items) &&
      CharAt(js, p + 1 + |pad| + ItemsLen(items), ']')
    case Obj(pad, members) =>
      CharAt(js, p, '{') && BlankRange(js, p + 1, p + 1 + |pad|) && LaidMembers(js, p + 1 + |pad|, members) &&
      CharAt(js, p + 1 + |pad| + MembersLen(members), '}')
  }

  predicate LaidItems(js: string, p: nat, items: Items)
    decreases items
  {
    match items
    case NoItems => true
    case Item(pre, v, post, rest) =>
      var q := p + |pre| + Len(v);
      BlankRange(js, p, p + |pre|) && Laid(js, p + |pre|, v) && BlankRange(js, q, q + |post|) &&
      (rest.Item? ==> CharAt(js, q + |post|, ',')) && LaidItems(js, NextItem(items, p), rest)
  }

  predicate LaidMembers(js: string, p: nat, members: Members)
    decreases members
  {
    match members
    case NoMembers => true
    case Member(pre, key, afterKey, preValue, v, post, rest) =>
      var k := p + |pre| + |key| + 2 + |afterKey|;
      var q := ValueStart(members, p) + Len(v);
      BlankRange(js, p, p + |pre|) && StringAt(js, p + |pre|, |key|) && BlankRange(js, k - |afterKey|, k) &&
      CharAt(js, k, ':') && BlankRange(js, k + 1, k + 1 + |preValue|) &&
      Laid(js, ValueStart(members, p), v) && BlankRange(js, q, q + |post|) &&
      (rest.Member? ==> CharAt(js, q + |post|, ',')) && LaidMembers(js, NextMember(members, p), rest)
  }

  /** The character at `p` ends a primitive. */
  predicate EndAt(js: string, p: nat) {
    p < |js| && EndsPrimitive(js[p])
  }

  lemma {:induction false} ScanPrimitiveStops(js: string, p: nat, i: nat, end: nat)
    requires p <= i <= end < |js|
    requires forall k :: p <= k < end ==> PrimitiveChar(js[k]) && !EndsPrimitive(js[k])
    requires EndsPrimitive(js[end])
    ensures ScanPrimitive(js, i) == Found(end)
    decreases end - i
  {
    if i < end {
      ScanPrimitiveStops(js, p, i + 1, end);
    }
  }

  lemma {:induction false} ScanStringStops(js: string, p: nat, body: string, i: nat)
    requires At(js, p, body) && CharAt(js, p + |body|, '\"')
    requires i <= |body| && StringBodyFrom(body, i)
    ensures ScanString(js, p + i) == Found(p + |body|)
    decreases |body| - i
  {
    if i < |body| {
      AtIndex(js, p, body, i);
      if body[i] == '\\' {
        AtIndex(js, p, body, i + 1);
        if body[i + 1] == 'u' {
          ScanHexFour(js, p, body, i + 2);
          ScanStringStops(js, p, body, i + 6);
        } else {
          ScanStringStops(js, p, body, i + 2);
        }
      } else {
        ScanStringStops(js, p, body, i + 1);
      }
    }
  }

  lemma ScanHexFour(js: string, p: nat, body: string, i: nat)
    requires At(js, p, body) && i + 4 <= |body|
    requires IsHex(body[i]) && IsHex(body[i + 1]) && IsHex(body[i + 2]) && IsHex(body[i + 3])
    ensures ScanHex(js, p + i, 4) == Found(p + i + 4)
  {
    assert ScanHex(js, p + i + 3, 1) == Found(p + i + 4);
    assert ScanHex(js, p + i + 2, 2) == Found(p + i + 4);
  }

  lemma AtQuoted(js: string, p: nat, body: string)
    requires At(js, p, Quoted(body))
    ensures CharAt(js, p, '\"') && At(js, p + 1, body) && CharAt(js, p + 1 + |body|, '\"')
  {
    AtSplit(js, p, "\"" + body, "\"");
    AtSplit(js, p, "\"", body);
    AtIndex(js, p, "\"", 0);
    AtIndex(js, p + 1 + |body|, "\"", 0);
  }

  lemma QuotedIsString(js: string, p: nat, body: string)
    requires At(js, p, Quoted(body)) && StringBody(body)
    ensures StringAt(js, p, |body|)
  {
    AtQuoted(js, p, body);
    ScanStringStops(js, p + 1, body, 0);
  }

  lemma TextIsPrimitive(js: string, p: nat, text: string)
    requires At(js, p, text) && PrimitiveBody(text) && EndAt(js, p + |text|)
    ensures PrimitiveAt(js, p, |text|)
  {
    forall k | p <= k < p + |text|
      ensures PrimitiveChar(js[k]) && !EndsPrimitive(js[k])
    {
      AtIndex(js, p, text, k - p);
    }
    AtIndex(js, p, text, 0);
    ScanPrimitiveStops(js, p, p, p + |text|);
  }

  lemma {:induction false} BlankIsRange(js: string, p: nat, ws: string, i: nat := 0)
    requires At(js, p, ws) && Blank(ws) && i <= |ws|
    ensures BlankRange(js, p + i, p + |ws|)
    decreases |ws| - i
  {
    if i < |ws| {
      AtIndex(js, p, ws, i);
      BlankIsRange(js, p, ws, i + 1);
    }
  }

  lemma AtPadded(js: string, p: nat, a: string, b: string, c: string)
    requires At(js, p, Padded(a, b, c))
    ensures At(js, p, a) && At(js, p + |a|, b) && At(js, p + |a| + |b|, c)
  {
    AtSplit(js, p, a + b, c);
    AtSplit(js, p, a, b);
  }

  lemma AtEnclosed(js: string, p: nat, open: string, pad: string, inside: string, close: string)
    requires At(js, p, Enclosed(open, pad, inside, close)) && |open| == |close| == 1
    ensures CharAt(js, p, open[0]) && At(js, p + 1, pad) && At(js, p + 1 + |pad|, inside)
    ensures CharAt(js, p + 1 + |pad| + |inside|, close[0])
  {
    AtSplit(js, p, open, Padded(pad, inside, close));
    AtPadded(js, p + 1, pad, inside, close);
    AtIndex(js, p, open, 0);
    AtIndex(js, p + 1 + |pad| + |inside|, close, 0);
  }

  lemma AtPair(js: string, p: nat, key: string, value: string)
    requires At(js, p, Pair(key, value))
    ensures At(js, p, key) && CharAt(js, p + |key|, ':') && At(js, p + |key| + 1, value)
  {
    AtSplit(js, p, key + ":", value);
    AtSplit(js, p, key, ":");
    AtIndex(js, p + |key|, ":", 0);
  }

  /** White space, or what comes after it, ends a primitive. */
  lemma SpaceEnds(js: string, p: nat, q: nat)
    requires BlankRange(js, p, q) && EndAt(js, q)
    ensures EndAt(js, p)
  {
  }

  /** The parts of `LaidItems` and `LaidMembers`, folded. */
  lemma FoldItem(js: string, p: nat, m: Items)
    requires m.Item? && BlankRange(js, p, p + |m.pre|) && Laid(js, p + |m.pre|, m.value)
    requires var q := p + |m.pre| + Len(m.value);
             BlankRange(js, q, q + |m.post|) && (m.rest.Item? ==> CharAt(js, q + |m.post|, ','))
    requires LaidItems(js, NextItem(m, p), m.rest)
    ensures LaidItems(js, p, m)
  {
  }

  lemma FoldMember(js: string, p: nat, m: Members)
    requires m.Member? && BlankRange(js, p, p + |m.pre|) && StringAt(js, p + |m.pre|, |m.key|)
    requires var k := p + |m.pre| + |m.key| + 2;
             BlankRange(js, k, k + |m.afterKey|) && CharAt(js, k + |m.afterKey|, ':') &&
             BlankRange(js, k + |m.afterKey| + 1, k + |m.afterKey| + 1 + |m.preValue|)
    requires Laid(js, ValueStart(m, p), m.value)
    requires var q := ValueStart(m, p) + Len(m.value);
             BlankRange(js, q, q + |m.post|) && (m.rest.Member? ==> CharAt(js, q + |m.post|, ','))
    requires LaidMembers(js, NextMember(m, p), m.rest)
    ensures LaidMembers(js, p, m)
  {
  }

  /** A printed value is laid out where it stands. */
  lemma {:induction false} TextIsLaid(js: string, p: nat, d: Doc)
    requires At(js, p, Text(d)) && WellFormed(d)
    requires d.Prim? ==> EndAt(js, p + Len(d))
    ensures Laid(js, p, d)
    decreases d
  {
    match d
    case Str(body) => QuotedIsString(js, p, body);
    case Prim(text) => TextIsPrimitive(js, p, text);
    case Arr(pad, items) =>
      AtArray(js, p, d);
      ItemsAreLaid(js, p + 1 + |pad|, items);
    case Obj(pad, members) =>
      AtObject(js, p, d);
      MembersAreLaid(js, p + 1 + |pad|, members);
  }

  /** The parts of a printed array, each where it stands. */
  lemma AtArray(js: string, p: nat, d: Doc)
    requires d.Arr? && At(js, p, Text(d)) && Blank(d.pad)
    ensures CharAt(js, p, '[') && BlankRange(js, p + 1, p + 1 + |d.pad|) && At(js, p + 1 + |d.pad|, ItemsText(d.items))
    ensures CharAt(js, p + 1 + |d.pad| + ItemsLen(d.items), ']')
  {
    AtEnclosed(js, p, "[", d.pad, ItemsText(d.items), "]");
    BlankIsRange(js, p + 1, d.pad);
    ItemsLenIsLength(d.items);
  }

  lemma AtObject(js: string, p: nat, d: Doc)
    requires d.Obj? && At(js, p, Text(d)) && Blank(d.pad)
    ensures CharAt(js, p, '{') && BlankRange(js, p + 1, p + 1 + |d.pad|)
    ensures At(js, p + 1 + |d.pad|, MembersText(d.members))
    ensures CharAt(js, p + 1 + |d.pad| + MembersLen(d.members), '}')
  {
    AtEnclosed(js, p, "{", d.pad, MembersText(d.members), "}");
    BlankIsRange(js, p + 1, d.pad);
    MembersLenIsLength(d.members);
  }

  /** The parts of a printed item, each where it stands. */
  lemma AtItem(js: string, p: nat, m: Items)
    requires m.Item? && At(js, p, ItemsText(m))
    ensures At(js, p, m.pre) && At(js, p + |m.pre|, Text(m.value))
    ensures var q := p + |m.pre| + Len(m.value); At(js, q, m.post) && At(js, q + |m.post|, MoreItems(m.rest))
  {
    LenIsLength(m.value);
    AtSplit(js, p, Padded(m.pre, Text(m.value), m.post), MoreItems(m.rest));
    AtPadded(js, p, m.pre, Text(m.value), m.post);
  }

  lemma AtMoreItems(js: string, q: nat, rest: Items)
    requires At(js, q, MoreItems(rest))
    ensures rest.Item? ==> CharAt(js, q, ',') && At(js, q + 1, ItemsText(rest)) && EndAt(js, q)
  {
    if rest.Item? {
      AtSplit(js, q, ",", ItemsText(rest));
      AtIndex(js, q, ",", 0);
    }
  }

  lemma AtMoreMembers(js: string, q: nat, rest: Members)
    requires At(js, q, MoreMembers(rest))
    ensures rest.Member? ==> CharAt(js, q, ',') && At(js, q + 1, MembersText(rest)) && EndAt(js, q)
  {
    if rest.Member? {
      AtSplit(js, q, ",", MembersText(rest));
      AtIndex(js, q, ",", 0);
    }
  }

  /** The white space after a value and the comma after that, or the closing bracket. */
  lemma AfterIsLaid(js: string, q: nat, post: string)
    requires At(js, q, post) && Blank(post) && EndAt(js, q + |post|)
    ensures BlankRange(js, q, q + |post|) && EndAt(js, q)
  {
    BlankIsRange(js, q, post);
    SpaceEnds(js, q, q + |post|);
  }

  lemma ItemIsLaid(js: string, p: nat, m: Items)
    requires m.Item? && At(js, p, ItemsText(m)) && ItemsWellFormed(m)
    requires EndAt(js, p + ItemsLen(m))
    ensures BlankRange(js, p, p + |m.pre|) && At(js, p + |m.pre|, Text(m.value))
    ensures var q := p + |m.pre| + Len(m.value);
            BlankRange(js, q, q + |m.post|) && EndAt(js, q) &&
            (m.rest.Item? ==> CharAt(js, q + |m.post|, ',') && At(js, q + |m.post| + 1, ItemsText(m.rest)))
  {
    var q := p + |m.pre| + Len(m.value);
    AtItem(js, p, m);
    AtMoreItems(js, q + |m.post|, m.rest);
    AfterIsLaid(js, q, m.post);
    BlankIsRange(js, p, m.pre);
  }

  lemma {:induction false} ItemsAreLaid(js: string, p: nat, items: Items)
    requires At(js, p, ItemsText(items)) && ItemsWellFormed(items)
    requires EndAt(js, p + ItemsLen(items))
    ensures LaidItems(js, p, items)
    decreases items
  {
    if items.Item? {
      ItemIsLaid(js, p, items);
      TextIsLaid(js, p + |items.pre|, items.value);
      if items.rest.Item? {
        ItemsAreLaid(js, NextItem(items, p), items.rest);
      }
      FoldItem(js, p, items);
    }
  }

  /** The parts of a printed member, each where it stands. */
  lemma AtMember(js: string, p: nat, m: Members)
    requires m.Member? && At(js, p, MembersText(m))
    ensures At(js, p, m.pre) && At(js, p + |m.pre|, Quoted(m.key))
    ensures At(js, p + |m.pre| + |m.key| + 2, m.afterKey)
    ensures var k := p + |m.pre| + |m.key| + 2 + |m.afterKey|; CharAt(js, k, ':') && At(js, k + 1, m.preValue)
    ensures At(js, ValueStart(m, p), Text(m.value))
    ensures var q := ValueStart(m, p) + Len(m.value); At(js, q, m.post) && At(js, q + |m.post|, MoreMembers(m.rest))
  {
    var left := Padded(m.pre, Quoted(m.key), m.afterKey);
    var right := Padded(m.preValue, Text(m.value), m.post);
    LenIsLength(m.value);
    AtSplit(js, p, Pair(left, right), MoreMembers(m.rest));
    AtPair(js, p, left, right);
    AtPadded(js, p, m.pre, Quoted(m.key), m.afterKey);
    AtPadded(js, p + |left| + 1, m.preValue, Text(m.value), m.post);
  }

  /** The key of a printed member, with its colon and white space. */
  lemma KeyIsLaid(js: string, p: nat, m: Members)
    requires m.Member? && At(js, p, MembersText(m)) && MembersWellFormed(m)
    ensures BlankRange(js, p, p + |m.pre|) && StringAt(js, p + |m.pre|, |m.key|)
    ensures var k := p + |m.pre| + |m.key| + 2;
            BlankRange(js, k, k + |m.afterKey|) && CharAt(js, k + |m.afterKey|, ':') &&
            BlankRange(js, k + |m.afterKey| + 1, k + |m.afterKey| + 1 + |m.preValue|)
  {
    AtMember(js, p, m);
    BlankIsRange(js, p, m.pre);
    QuotedIsString(js, p + |m.pre|, m.key);
    BlankIsRange(js, p + |m.pre| + |m.key| + 2, m.afterKey);
    BlankIsRange(js, p + |m.pre| + |m.key| + 2 + |m.afterKey| + 1, m.preValue);
  }

  /** The value of a printed member and what follows it. */
  lemma ValueIsAt(js: string, p: nat, m: Members)
    requires m.Member? && At(js, p, MembersText(m)) && MembersWellFormed(m)
    requires EndAt(js, p + MembersLen(m))
    ensures At(js, ValueStart(m, p), Text(m.value))
    ensures var q := ValueStart(m, p) + Len(m.value);
            BlankRange(js, q, q + |m.post|) && EndAt(js, q) &&
            (m.rest.Member? ==> CharAt(js, q + |m.post|, ',') && At(js, q + |m.post| + 1, MembersText(m.rest)))
  {
    var q := ValueStart(m, p) + Len(m.value);
    AtMember(js, p, m);
    AtMoreMembers(js, q + |m.post|, m.rest);
    AfterIsLaid(js, q, m.post);
  }

  lemma {:induction false} MembersAreLaid(js: string, p: nat, members: Members)
    requires At(js, p, MembersText(members)) && MembersWellFormed(members)
    requires EndAt(js, p + MembersLen(members))
    ensures LaidMembers(js, p, members)
    decreases members
  {
    if members.Member? {
      KeyIsLaid(js, p, members);
      ValueIsAt(js, p, members);
      TextIsLaid(js, ValueStart(members, p), members.value);
      if members.rest.Member? {
        MembersAreLaid(js, NextMember(members, p), members.rest);
      }
      FoldMember(js, p, members);
    }
  }

  // ============================================================ token arrays

  predicate NoneOpen(ts: seq<Token>) {
    forall i :: 0 <= i < |ts| ==> !ts[i].Open()
  }

  /** Openness alone decides where the innermost open bracket is. */
  lemma {:induction false} LastOpenSame(a: seq<Token>, b: seq<Token>)
    requires |a| == |b| && forall i :: 0 <= i < |a| ==> a[i].Open() == b[i].Open()
    ensures LastOpen(a) == LastOpen(b)
    decreases |a|
  {
    if a != [] {
      LastOpenSame(a[..|a| - 1], b[..|b| - 1]);
    }
  }

  lemma {:induction false} LastOpenAppend(ts: seq<Token>, more: seq<Token>)
    requires NoneOpen(more)
    ensures LastOpen(ts + more) == LastOpen(ts)
    decreases |more|
  {
    if more == [] {
      assert ts + more == ts;
    } else {
      var front := more[..|more| - 1];
      assert (ts + more)[..|ts + more| - 1] == ts + front;
      assert !(ts + more)[|ts + more| - 1].Open();
      LastOpenAppend(ts, front);
    }
  }

  lemma LastOpenBump(ts: seq<Token>, i: int)
    requires -1 <= i < |ts|
    ensures LastOpen(Bump(ts, i)) == LastOpen(ts)
  {
    LastOpenSame(ts, Bump(ts, i));
  }

  lemma {:induction false} TokensAreClosed(d: Doc, p: nat)
    ensures NoneOpen(TokensOf(d, p))
    decreases d
  {
    match d
    case Str(_) =>
    case Prim(_) =>
    case Arr(pad, items) => ItemTokensAreClosed(items, p + 1 + |pad|);
    case Obj(pad, members) => MemberTokensAreClosed(members, p + 1 + |pad|);
  }

  lemma {:induction false} ItemTokensAreClosed(items: Items, p: nat)
    ensures NoneOpen(ItemTokens(items, p))
    decreases items
  {
    if items.Item? {
      TokensAreClosed(items.value, p + |items.pre|);
      ItemTokensAreClosed(items.rest, NextItem(items, p));
    }
  }

  lemma {:induction false} MemberTokensAreClosed(members: Members, p: nat)
    ensures NoneOpen(MemberTokens(members, p))
    decreases members
  {
    if members.Member? {
      TokensAreClosed(members.value, ValueStart(members, p));
      MemberTokensAreClosed(members.rest, NextMember(members, p));
    }
  }

  // ================================================================ the runs

  // The lemmas below hold for any reflexive and transitive relation that contains the
  // iterations of the loop; the theorem takes "has the same outcome".

  type Rel = (State, State) -> bool

  predicate OneStep(js: string, cap: nat, s: State, t: State) {
    s.Valid(js) && !AtEnd(js, s) && Step(js, cap, s) == Next(t)
  }

  ghost predicate Follows(js: string, cap: nat, L: Rel) {
    && (forall s, t {:trigger OneStep(js, cap, s, t)} :: OneStep(js, cap, s, t) ==> L(s, t))
    && (forall s {:trigger L(s, s)} :: L(s, s))
    && (forall s, t, u {:trigger L(s, t), L(t, u)} :: L(s, t) && L(t, u) ==> L(s, u))
  }

  /** The run passes from `s` through `t`. */
  predicate Leads(js: string, L: Rel, s: State, t: State) {
    t.Valid(js) && L(s, t)
  }

  lemma {:induction false} SpaceRuns(js: string, cap: nat, L: Rel, s: State, n: nat)
    requires Follows(js, cap, L)
    requires s.Valid(js) && BlankRange(js, s.pos, s.pos + n)
    ensures Leads(js, L, s, s.(pos := s.pos + n))
    decreases n
  {
    if n > 0 {
      assert OneStep(js, cap, s, s.(pos := s.pos + 1));
      SpaceRuns(js, cap, L, s.(pos := s.pos + 1), n - 1);
    }
  }

  /** Where a value may stand: at the root, in an array, or after a key that has none. */
  predicate Slot(ts: seq<Token>, super: int)
    requires -1 <= super < |ts|
  {
    super == -1 || ts[super].kind == Array || (ts[super].kind == String && ts[super].size == 0)
  }

  predicate Bracketed(d: Doc) {
    d.Arr? || d.Obj?
  }

  function KindOf(d: Doc): Kind
    requires Bracketed(d)
  {
    if d.Arr? then Array else Object
  }

  lemma StringRuns(js: string, cap: nat, L: Rel, s: State, n: nat)
    requires Follows(js, cap, L)
    requires s.Valid(js) && StringAt(js, s.pos, n) && |s.toks| < cap
    ensures Leads(js, L, s, State(s.pos + n + 2,
              Bump(s.toks, s.super) + [Token(String, s.pos + 1, s.pos + 1 + n, 0)], s.super))
  {
    assert OneStep(js, cap, s, State(s.pos + n + 2,
              Bump(s.toks, s.super) + [Token(String, s.pos + 1, s.pos + 1 + n, 0)], s.super));
  }

  lemma PrimitiveRuns(js: string, cap: nat, L: Rel, s: State, n: nat)
    requires Follows(js, cap, L)
    requires s.Valid(js) && PrimitiveAt(js, s.pos, n) && |s.toks| < cap && Slot(s.toks, s.super)
    ensures Leads(js, L, s, State(s.pos + n,
              Bump(s.toks, s.super) + [Token(Primitive, s.pos, s.pos + n, 0)], s.super))
  {
    assert OneStep(js, cap, s, State(s.pos + n,
              Bump(s.toks, s.super) + [Token(Primitive, s.pos, s.pos + n, 0)], s.super));
  }

  lemma ColonRuns(js: string, cap: nat, L: Rel, s: State)
    requires Follows(js, cap, L)
    requires s.Valid(js) && CharAt(js, s.pos, ':') && s.toks != []
    ensures Leads(js, L, s, s.(pos := s.pos + 1, super := |s.toks| - 1))
  {
    assert OneStep(js, cap, s, s.(pos := s.pos + 1, super := |s.toks| - 1));
  }

  lemma OpenRuns(js: string, cap: nat, L: Rel, s: State, kind: Kind)
    requires Follows(js, cap, L)
    requires s.Valid(js) && Slot(s.toks, s.super) && |s.toks| < cap
    requires (kind == Array && CharAt(js, s.pos, '[')) || (kind == Object && CharAt(js, s.pos, '{'))
    ensures Leads(js, L, s,
              State(s.pos + 1, Bump(s.toks, s.super) + [Token(kind, s.pos, -1, 0)], |s.toks|))
  {
    assert OneStep(js, cap, s,
              State(s.pos + 1, Bump(s.toks, s.super) + [Token(kind, s.pos, -1, 0)], |s.toks|));
  }

  /** `o` is the innermost open bracket. */
  predicate Inside(ts: seq<Token>, o: nat, kind: Kind) {
    o < |ts| && ts[o].kind == kind && LastOpen(ts) == o && (kind == Array || kind == Object)
  }

  /** Bracket `o` once it has taken `n` more children and closed at `e`. */
  function Closed(ts: seq<Token>, o: nat, n: nat, e: nat): seq<Token>
    requires o < |ts|
  {
    ts[o := ts[o].(size := ts[o].size + n, end := e)]
  }

  lemma CloseRuns(js: string, cap: nat, L: Rel, s: State, o: nat, kind: Kind)
    requires Follows(js, cap, L)
    requires s.Valid(js) && Inside(s.toks, o, kind)
    requires CharAt(js, s.pos, if kind == Array then ']' else '}')
    ensures Leads(js, L, s, State(s.pos + 1, Closed(s.toks, o, 0, s.pos + 1), LastOpen(s.toks[..o])))
  {
    var ts := Closed(s.toks, o, 0, s.pos + 1);
    assert ts[..o + 1][..o] == s.toks[..o];
    assert LastOpen(ts[..o + 1]) == LastOpen(s.toks[..o]);
    assert OneStep(js, cap, s, State(s.pos + 1, ts, LastOpen(s.toks[..o])));
  }

  /** A comma hands the children back to the innermost open bracket. */
  lemma CommaRuns(js: string, cap: nat, L: Rel, s: State, o: nat, kind: Kind)
    requires Follows(js, cap, L)
    requires s.Valid(js) && CharAt(js, s.pos, ',') && Inside(s.toks, o, kind)
    requires s.super == o || (s.super != -1 && s.toks[s.super].kind == String)
    ensures Leads(js, L, s, s.(pos := s.pos + 1, super := o))
  {
    SameScan(s.toks);
    assert OneStep(js, cap, s, s.(pos := s.pos + 1, super := o));
  }

  /** White space, a key and white space again. */
  lemma KeyTextRuns(js: string, cap: nat, L: Rel, s: State, t: State, m: Members, k: nat)
    requires Follows(js, cap, L)
    requires s.Valid(js) && s.super != -1 && |s.toks| < cap && m.Member? && LaidMembers(js, s.pos, m)
    requires k == s.pos + |m.pre| + |m.key| + 2 + |m.afterKey|
    requires t == State(k, Bump(s.toks, s.super) + [KeyToken(m, s.pos).(size := 0)], s.super)
    ensures Leads(js, L, s, t)
  {
    SpaceRuns(js, cap, L, s, |m.pre|);
    StringRuns(js, cap, L, s.(pos := s.pos + |m.pre|), |m.key|);
    SpaceRuns(js, cap, L, t.(pos := k - |m.afterKey|), |m.afterKey|);
  }

  /** A key, its colon and the white space on both sides: the key becomes superior. */
  lemma KeyRuns(js: string, cap: nat, L: Rel, s: State, m: Members)
    requires Follows(js, cap, L)
    requires s.Valid(js) && s.super != -1 && |s.toks| < cap
    requires m.Member? && LaidMembers(js, s.pos, m)
    ensures Leads(js, L, s, State(ValueStart(m, s.pos),
              Bump(s.toks, s.super) + [KeyToken(m, s.pos).(size := 0)], |s.toks|))
  {
    var k := s.pos + |m.pre| + |m.key| + 2 + |m.afterKey|;
    var t := State(k, Bump(s.toks, s.super) + [KeyToken(m, s.pos).(size := 0)], s.super);
    KeyTextRuns(js, cap, L, s, t, m, k);
    ColonRuns(js, cap, L, t);
    SpaceRuns(js, cap, L, t.(pos := k + 1, super := |s.toks|), |m.preValue|);
  }

  /** What a value does to the token array and to the superior token. */
  function ValueTokens(ts: seq<Token>, super: int, d: Doc, p: nat): seq<Token>
    requires -1 <= super < |ts|
  {
    Bump(ts, super) + TokensOf(d, p)
  }

  function SuperAfter(ts: seq<Token>, super: int, d: Doc): (r: int)
    ensures -1 <= super < |ts| ==> -1 <= r < |ts|
  {
    if Bracketed(d) then LastOpen(ts) else super
  }

  function AfterValue(s: State, d: Doc): State
    requires -1 <= s.super < |s.toks|
  {
    State(s.pos + Len(d), ValueTokens(s.toks, s.super, d, s.pos), SuperAfter(s.toks, s.super, d))
  }

  /** From the start of a value to its end, wherever a value may stand. */
  lemma {:induction false} ValueRuns(js: string, cap: nat, L: Rel, s: State, d: Doc)
    requires Follows(js, cap, L)
    requires s.Valid(js) && Laid(js, s.pos, d) && Slot(s.toks, s.super)
    requires |s.toks| + TokenCount(d) <= cap
    ensures Leads(js, L, s, AfterValue(s, d))
    decreases d, 3
  {
    match d
    case Str(body) => StringRuns(js, cap, L, s, |body|);
    case Prim(text) => PrimitiveRuns(js, cap, L, s, |text|);
    case Arr(pad, items) => ArrayRuns(js, cap, L, s, pad, items);
    case Obj(pad, members) => ObjectRuns(js, cap, L, s, pad, members);
  }

  lemma {:induction false} ArrayRuns(js: string, cap: nat, L: Rel, s: State, pad: string, items: Items)
    requires Follows(js, cap, L)
    requires s.Valid(js) && Slot(s.toks, s.super)
    requires CharAt(js, s.pos, '[') && BlankRange(js, s.pos + 1, s.pos + 1 + |pad|)
    requires LaidItems(js, s.pos + 1 + |pad|, items) && CharAt(js, s.pos + 1 + |pad| + ItemsLen(items), ']')
    requires |s.toks| + 1 + ItemTokenCount(items) <= cap
    ensures Leads(js, L, s, AfterValue(s, Arr(pad, items)))
    decreases items, 4
  {
    var t := EnterRuns(js, cap, L, s, Array, |pad|);
    ItemsRun(js, cap, L, t, items, |s.toks|);
    LeaveLeads(js, cap, L, s, t, Arr(pad, items), ItemCount(items), ItemsLen(items) + 1, ItemTokens(items, t.pos));
  }

  lemma {:induction false} ObjectRuns(js: string, cap: nat, L: Rel, s: State, pad: string, members: Members)
    requires Follows(js, cap, L)
    requires s.Valid(js) && Slot(s.toks, s.super)
    requires CharAt(js, s.pos, '{') && BlankRange(js, s.pos + 1, s.pos + 1 + |pad|)
    requires LaidMembers(js, s.pos + 1 + |pad|, members) && CharAt(js, s.pos + 1 + |pad| + MembersLen(members), '}')
    requires |s.toks| + 1 + MemberTokenCount(members) <= cap
    ensures Leads(js, L, s, AfterValue(s, Obj(pad, members)))
    decreases members, 4
  {
    var t := EnterRuns(js, cap, L, s, Object, |pad|);
    MembersRun(js, cap, L, t, members, |s.toks|);
    LeaveLeads(js, cap, L, s, t, Obj(pad, members), MemberCount(members), MembersLen(members) + 1,
               MemberTokens(members, t.pos));
  }

  /** Through an opening bracket and the white space after it. */
  lemma EnterRuns(js: string, cap: nat, L: Rel, s: State, kind: Kind, n: nat) returns (t: State)
    requires Follows(js, cap, L)
    requires s.Valid(js) && Slot(s.toks, s.super) && |s.toks| < cap && (kind == Array || kind == Object)
    requires CharAt(js, s.pos, if kind == Array then '[' else '{') && BlankRange(js, s.pos + 1, s.pos + 1 + n)
    ensures t == State(s.pos + 1 + n, Bump(s.toks, s.super) + [Token(kind, s.pos, -1, 0)], |s.toks|)
    ensures Leads(js, L, s, t) && Inside(t.toks, |s.toks|, kind)
  {
    OpenRuns(js, cap, L, s, kind);
    t := State(s.pos + 1, Bump(s.toks, s.super) + [Token(kind, s.pos, -1, 0)], |s.toks|);
    SpaceRuns(js, cap, L, t, n);
    t := t.(pos := t.pos + n);
  }

  /** The closed bracket followed by its contents is the flattening of the value. */
  lemma LeaveTokens(s: State, t: State, d: Doc, n: nat, inside: seq<Token>)
    requires -1 <= s.super < |s.toks| && Bracketed(d)
    requires t.toks == Bump(s.toks, s.super) + [Token(KindOf(d), s.pos, -1, 0)]
    requires TokensOf(d, s.pos) == [Token(KindOf(d), s.pos, s.pos + Len(d), n)] + inside
    ensures Closed(t.toks, |s.toks|, n, s.pos + Len(d)) + inside == ValueTokens(s.toks, s.super, d, s.pos)
    ensures LastOpen(t.toks[..|s.toks|]) == SuperAfter(s.toks, s.super, d)
  {
    assert t.toks[..|s.toks|] == Bump(s.toks, s.super);
    LastOpenBump(s.toks, s.super);
  }

  /** Everything between an opening bracket and its closing one, and the closing one. */
  function AfterBracket(s: State, o: nat, n: nat, length: nat, inside: seq<Token>): State
    requires o < |s.toks|
  {
    State(s.pos + length, Closed(s.toks, o, n, s.pos + length) + inside, LastOpen(s.toks[..o]))
  }

  /** A bracket that was innermost is innermost again after one more child. */
  lemma StillInside(ts: seq<Token>, o: nat, kind: Kind, more: seq<Token>)
    requires Inside(ts, o, kind) && NoneOpen(more)
    ensures Inside(Bump(ts, o) + more, o, kind)
  {
    LastOpenBump(ts, o);
    LastOpenAppend(Bump(ts, o), more);
  }

  /** Closing after the first child and closing after all of them. */
  lemma NestedBracket(ts: seq<Token>, o: nat, front: seq<Token>, n: nat, e: nat, back: seq<Token>)
    requires o < |ts|
    ensures (Bump(ts, o) + front)[..o] == ts[..o]
    ensures Closed(Bump(ts, o) + front, o, n, e) + back == Closed(ts, o, n + 1, e) + (front + back)
  {
  }

  /** The first child, then the rest up to the closing bracket, is all of it. */
  lemma NestedLeads(
    js: string, cap: nat, L: Rel, s: State, t: State, o: nat, front: seq<Token>, n: nat, k: nat, back: seq<Token>,
    m: nat, length: nat, inside: seq<Token>)
    requires Follows(js, cap, L)
    requires o < |s.toks| && t.toks == Bump(s.toks, o) + front
    requires m == n + 1 && s.pos + length == t.pos + k && inside == front + back
    requires Leads(js, L, s, t) && Leads(js, L, t, AfterBracket(t, o, n, k, back))
    ensures Leads(js, L, s, AfterBracket(s, o, m, length, inside))
  {
    NestedBracket(s.toks, o, front, n, s.pos + length, back);
    assert AfterBracket(t, o, n, k, back) == AfterBracket(s, o, m, length, inside);
  }

  /** Nothing more inside: only the closing bracket. */
  lemma EmptyBracket(js: string, cap: nat, L: Rel, s: State, o: nat, kind: Kind)
    requires Follows(js, cap, L)
    requires s.Valid(js) && Inside(s.toks, o, kind)
    requires CharAt(js, s.pos, if kind == Array then ']' else '}')
    ensures Leads(js, L, s, AfterBracket(s, o, 0, 1, []))
  {
    CloseRuns(js, cap, L, s, o, kind);
    assert Closed(s.toks, o, 0, s.pos + 1) + [] == Closed(s.toks, o, 0, s.pos + 1);
  }

  /** From before an opening bracket to past the matching closing one. */
  lemma LeaveLeads(js: string, cap: nat, L: Rel, s: State, t: State, d: Doc, n: nat, k: nat, inside: seq<Token>)
    requires Follows(js, cap, L)
    requires -1 <= s.super < |s.toks| && Bracketed(d)
    requires t.toks == Bump(s.toks, s.super) + [Token(KindOf(d), s.pos, -1, 0)]
    requires TokensOf(d, s.pos) == [Token(KindOf(d), s.pos, s.pos + Len(d), n)] + inside
    requires s.pos + Len(d) == t.pos + k
    requires Leads(js, L, s, t) && Leads(js, L, t, AfterBracket(t, |s.toks|, n, k, inside))
    ensures Leads(js, L, s, AfterValue(s, d))
  {
    LeaveTokens(s, t, d, n, inside);
    assert AfterBracket(t, |s.toks|, n, k, inside) == AfterValue(s, d);
  }

  /** The white space after a child, and the comma if another follows. */
  lemma ChildEnds(js: string, cap: nat, L: Rel, t: State, u: State, o: nat, kind: Kind, n: nat, more: bool)
    requires Follows(js, cap, L)
    requires t.Valid(js) && Inside(t.toks, o, kind) && BlankRange(js, t.pos, t.pos + n)
    requires more ==> CharAt(js, t.pos + n, ',') && (t.super == o || (t.super != -1 && t.toks[t.super].kind == String))
    requires u == State(t.pos + n + (if more then 1 else 0), t.toks, if more then o else t.super)
    ensures Leads(js, L, t, u)
  {
    SpaceRuns(js, cap, L, t, n);
    if more {
      CommaRuns(js, cap, L, t.(pos := t.pos + n), o, kind);
    }
  }

  /** The white space before an item, and its value. */
  lemma {:induction false} ItemValueRuns(
    js: string, cap: nat, L: Rel, s: State, t: State, m: Items, o: nat, v: nat, front: seq<Token>)
    requires Follows(js, cap, L)
    requires s.Valid(js) && Inside(s.toks, o, Array) && s.super == o && m.Item? && v == s.pos + |m.pre|
    requires BlankRange(js, s.pos, v) && Laid(js, v, m.value) && |s.toks| + TokenCount(m.value) <= cap
    requires front == TokensOf(m.value, v) && t == State(v + Len(m.value), Bump(s.toks, o) + front, o)
    ensures Leads(js, L, s, t) && Inside(t.toks, o, Array)
    decreases m, 0
  {
    SpaceRuns(js, cap, L, s, |m.pre|);
    ValueRuns(js, cap, L, s.(pos := v), m.value);
    TokensAreClosed(m.value, v);
    StillInside(s.toks, o, Array, front);
    assert AfterValue(s.(pos := v), m.value) == t;
  }

  /** Where the parts of an item stand. */
  lemma ItemLaid(js: string, p: nat, m: Items, v: nat, q: nat, next: nat)
    requires m.Item? && LaidItems(js, p, m) && v == p + |m.pre| && q == v + Len(m.value) && next == NextItem(m, p)
    ensures BlankRange(js, p, v) && Laid(js, v, m.value) && BlankRange(js, q, q + |m.post|)
    ensures m.rest.Item? ==> CharAt(js, q + |m.post|, ',')
    ensures LaidItems(js, next, m.rest) && next == q + |m.post| + if m.rest.Item? then 1 else 0
    ensures p + ItemsLen(m) == next + ItemsLen(m.rest)
  {
  }

  lemma {:induction false} ItemPartsRun(
    js: string, cap: nat, L: Rel, s: State, u: State, t: State, m: Items, o: nat, v: nat, front: seq<Token>)
    requires Follows(js, cap, L)
    requires s.Valid(js) && Inside(s.toks, o, Array) && s.super == o && m.Item? && v == s.pos + |m.pre|
    requires BlankRange(js, s.pos, v) && Laid(js, v, m.value) && |s.toks| + TokenCount(m.value) <= cap
    requires front == TokensOf(m.value, v) && u == State(v + Len(m.value), Bump(s.toks, o) + front, o)
    requires BlankRange(js, u.pos, u.pos + |m.post|) && (m.rest.Item? ==> CharAt(js, u.pos + |m.post|, ','))
    requires t == State(u.pos + |m.post| + (if m.rest.Item? then 1 else 0), u.toks, o)
    ensures Leads(js, L, s, t) && Inside(t.toks, o, Array)
    decreases m, 1
  {
    ItemValueRuns(js, cap, L, s, u, m, o, v, front);
    ChildEnds(js, cap, L, u, t, o, Array, |m.post|, m.rest.Item?);
  }

  /** One item, with the white space around it and the comma after it. */
  lemma {:induction false} ItemRuns(js: string, cap: nat, L: Rel, s: State, m: Items, o: nat) returns (t: State)
    requires Follows(js, cap, L)
    requires s.Valid(js) && Inside(s.toks, o, Array) && s.super == o
    requires m.Item? && LaidItems(js, s.pos, m)
    requires |s.toks| + TokenCount(m.value) <= cap
    ensures t == State(NextItem(m, s.pos), Bump(s.toks, o) + TokensOf(m.value, s.pos + |m.pre|), o)
    ensures Leads(js, L, s, t) && Inside(t.toks, o, Array)
    decreases m, 2
  {
    var v := s.pos + |m.pre|;
    var q, next, front := v + Len(m.value), NextItem(m, s.pos), TokensOf(m.value, v);
    ItemLaid(js, s.pos, m, v, q, next);
    t := State(next, Bump(s.toks, o) + front, o);
    ItemPartsRun(js, cap, L, s, State(q, t.toks, o), t, m, o, v, front);
  }

  /** What the rest of the items find after the first. */
  lemma ItemsLeft(js: string, cap: nat, s: State, t: State, m: Items, o: nat, v: nat)
    requires m.Item? && o < |s.toks| && v == s.pos + |m.pre|
    requires t.pos == NextItem(m, s.pos) && t.toks == Bump(s.toks, o) + TokensOf(m.value, v)
    requires LaidItems(js, s.pos, m) && CharAt(js, s.pos + ItemsLen(m), ']')
    requires |s.toks| + ItemTokenCount(m) <= cap
    ensures LaidItems(js, t.pos, m.rest) && CharAt(js, t.pos + ItemsLen(m.rest), ']')
    ensures |t.toks| + ItemTokenCount(m.rest) <= cap
  {
    ItemLaid(js, s.pos, m, v, v + Len(m.value), t.pos);
    TokenCountIsLength(m.value, v);
  }

  lemma {:induction false} ItemsRun(js: string, cap: nat, L: Rel, s: State, items: Items, o: nat)
    requires Follows(js, cap, L)
    requires s.Valid(js) && Inside(s.toks, o, Array) && s.super == o
    requires LaidItems(js, s.pos, items) && CharAt(js, s.pos + ItemsLen(items), ']')
    requires |s.toks| + ItemTokenCount(items) <= cap
    ensures Leads(js, L, s, AfterBracket(s, o, ItemCount(items), ItemsLen(items) + 1, ItemTokens(items, s.pos)))
    decreases items, 3
  {
    if items.NoItems? {
      EmptyBracket(js, cap, L, s, o, Array);
    } else {
      var t := ItemRuns(js, cap, L, s, items, o);
      ItemsLeft(js, cap, s, t, items, o, s.pos + |items.pre|);
      ItemsRun(js, cap, L, t, items.rest, o);
      ItemsNest(js, cap, L, s, t, items, o);
    }
  }

  lemma ItemsNest(js: string, cap: nat, L: Rel, s: State, t: State, m: Items, o: nat)
    requires Follows(js, cap, L)
    requires m.Item? && o < |s.toks|
    requires t.pos == NextItem(m, s.pos) && t.toks == Bump(s.toks, o) + TokensOf(m.value, s.pos + |m.pre|)
    requires Leads(js, L, s, t)
    requires Leads(js, L, t, AfterBracket(t, o, ItemCount(m.rest), ItemsLen(m.rest) + 1, ItemTokens(m.rest, t.pos)))
    ensures Leads(js, L, s, AfterBracket(s, o, ItemCount(m), ItemsLen(m) + 1, ItemTokens(m, s.pos)))
  {
    NestedLeads(js, cap, L, s, t, o, TokensOf(m.value, s.pos + |m.pre|), ItemCount(m.rest), ItemsLen(m.rest) + 1,
                ItemTokens(m.rest, t.pos), ItemCount(m), ItemsLen(m) + 1, ItemTokens(m, s.pos));
  }

  lemma KeySlot(ts: seq<Token>, o: nat, key: Token)
    requires Inside(ts, o, Object) && !key.Open() && key.kind == String && key.size == 0
    ensures var us := Bump(ts, o) + [key];
            && Slot(us, |ts|) && LastOpen(us) == o
            && Bump(us, |ts|) == Bump(ts, o) + [key.(size := 1)]
  {
    StillInside(ts, o, Object, [key]);
  }

  function MemberFront(m: Members, p: nat): seq<Token>
    requires m.Member?
  {
    [KeyToken(m, p)] + TokensOf(m.value, ValueStart(m, p))
  }

  /** A key and its value: the superior token ends up being the key or the bracket. */
  lemma {:induction false} PairRuns(js: string, cap: nat, L: Rel, s: State, m: Members, o: nat) returns (super: int)
    requires Follows(js, cap, L)
    requires s.Valid(js) && Inside(s.toks, o, Object) && s.super == o
    requires m.Member? && LaidMembers(js, s.pos, m)
    requires |s.toks| + 1 + TokenCount(m.value) <= cap
    ensures super == o || super == |s.toks|
    ensures Leads(js, L, s, State(ValueStart(m, s.pos) + Len(m.value), Bump(s.toks, o) + MemberFront(m, s.pos), super))
    decreases m, 0
  {
    KeyRuns(js, cap, L, s, m);
    var key := KeyToken(m, s.pos).(size := 0);
    KeySlot(s.toks, o, key);
    var t := State(ValueStart(m, s.pos), Bump(s.toks, o) + [key], |s.toks|);
    ValueRuns(js, cap, L, t, m.value);
    assert ValueTokens(t.toks, t.super, m.value, t.pos) == Bump(s.toks, o) + MemberFront(m, s.pos);
    super := SuperAfter(t.toks, t.super, m.value);
  }

  /** A whole member, with the white space and the comma after it. */
  lemma {:induction false} MemberRuns(js: string, cap: nat, L: Rel, s: State, m: Members, o: nat) returns (super: int)
    requires Follows(js, cap, L)
    requires s.Valid(js) && Inside(s.toks, o, Object) && s.super == o
    requires m.Member? && LaidMembers(js, s.pos, m)
    requires |s.toks| + 1 + TokenCount(m.value) <= cap
    ensures m.rest.Member? ==> super == o
    ensures var ts := Bump(s.toks, o) + MemberFront(m, s.pos);
            Leads(js, L, s, State(NextMember(m, s.pos), ts, super)) && Inside(ts, o, Object)
    decreases m, 1
  {
    super := PairRuns(js, cap, L, s, m, o);
    var ts := Bump(s.toks, o) + MemberFront(m, s.pos);
    TokensAreClosed(m.value, ValueStart(m, s.pos));
    StillInside(s.toks, o, Object, MemberFront(m, s.pos));
    assert ts[|s.toks|] == KeyToken(m, s.pos);
    var t := State(ValueStart(m, s.pos) + Len(m.value), ts, super);
    super := if m.rest.Member? then o else super;
    ChildEnds(js, cap, L, t, State(NextMember(m, s.pos), ts, super), o, Object, |m.post|, m.rest.Member?);
  }

  /** What the rest of the members find after the first. */
  lemma MembersLeft(js: string, cap: nat, s: State, t: State, m: Members, o: nat)
    requires m.Member? && o < |s.toks|
    requires t.pos == NextMember(m, s.pos) && t.toks == Bump(s.toks, o) + MemberFront(m, s.pos)
    requires LaidMembers(js, s.pos, m) && CharAt(js, s.pos + MembersLen(m), '}')
    requires |s.toks| + MemberTokenCount(m) <= cap
    ensures LaidMembers(js, t.pos, m.rest) && CharAt(js, t.pos + MembersLen(m.rest), '}')
    ensures |t.toks| + MemberTokenCount(m.rest) <= cap
  {
    TokenCountIsLength(m.value, ValueStart(m, s.pos));
  }

  /** The first member, and what the rest find after it. */
  lemma {:induction false} FirstMember(js: string, cap: nat, L: Rel, s: State, members: Members, o: nat)
    returns (t: State)
    requires Follows(js, cap, L)
    requires s.Valid(js) && Inside(s.toks, o, Object) && s.super == o && members.Member?
    requires LaidMembers(js, s.pos, members) && CharAt(js, s.pos + MembersLen(members), '}')
    requires |s.toks| + MemberTokenCount(members) <= cap
    ensures t.pos == NextMember(members, s.pos) && t.toks == Bump(s.toks, o) + MemberFront(members, s.pos)
    ensures Leads(js, L, s, t) && Inside(t.toks, o, Object) && (t.super == o || members.rest.NoMembers?)
    ensures LaidMembers(js, t.pos, members.rest) && CharAt(js, t.pos + MembersLen(members.rest), '}')
    ensures |t.toks| + MemberTokenCount(members.rest) <= cap
    decreases members, 2
  {
    var super := MemberRuns(js, cap, L, s, members, o);
    t := State(NextMember(members, s.pos), Bump(s.toks, o) + MemberFront(members, s.pos), super);
    MembersLeft(js, cap, s, t, members, o);
  }

  lemma {:induction false} MembersRun(js: string, cap: nat, L: Rel, s: State, members: Members, o: nat)
    requires Follows(js, cap, L)
    requires s.Valid(js) && Inside(s.toks, o, Object)
    requires s.super == o || members.NoMembers?
    requires LaidMembers(js, s.pos, members) && CharAt(js, s.pos + MembersLen(members), '}')
    requires |s.toks| + MemberTokenCount(members) <= cap
    ensures Leads(js, L, s,
                  AfterBracket(s, o, MemberCount(members), MembersLen(members) + 1, MemberTokens(members, s.pos)))
    decreases members, 3
  {
    if members.NoMembers? {
      EmptyBracket(js, cap, L, s, o, Object);
    } else {
      var t := FirstMember(js, cap, L, s, members, o);
      MembersRun(js, cap, L, t, members.rest, o);
      MembersNest(js, cap, L, s, t, members, o);
    }
  }

  lemma FrontAndBack(m: Members, p: nat, next: nat)
    requires m.Member? && next == NextMember(m, p)
    ensures MemberFront(m, p) + MemberTokens(m.rest, next) == MemberTokens(m, p)
    ensures MemberCount(m) == MemberCount(m.rest) + 1
    ensures p + (MembersLen(m) + 1) == next + (MembersLen(m.rest) + 1)
  {
  }

  lemma MembersNest(js: string, cap: nat, L: Rel, s: State, t: State, m: Members, o: nat)
    requires Follows(js, cap, L)
    requires m.Member? && o < |s.toks|
    requires t.pos == NextMember(m, s.pos) && t.toks == Bump(s.toks, o) + MemberFront(m, s.pos)
    requires Leads(js, L, s, t)
    requires Leads(js, L, t,
                   AfterBracket(t, o, MemberCount(m.rest), MembersLen(m.rest) + 1, MemberTokens(m.rest, t.pos)))
    ensures Leads(js, L, s, AfterBracket(s, o, MemberCount(m), MembersLen(m) + 1, MemberTokens(m, s.pos)))
  {
    var front, back := MemberFront(m, s.pos), MemberTokens(m.rest, t.pos);
    FrontAndBack(m, s.pos, t.pos);
    NestedLeads(js, cap, L, s, t, o, front, MemberCount(m.rest), MembersLen(m.rest) + 1, back,
                MemberCount(m), MembersLen(m) + 1, MemberTokens(m, s.pos));
  }

  // ============================================================= the theorem

  /** A document as it stands in a file: white space around a bracketed root. */
  datatype File = File(lead: string, root: Doc, trail: string) {
    predicate Valid() {
      Blank(lead) && Blank(trail) && WellFormed(root) && Bracketed(root)
    }

    function Print(): string {
      Padded(lead, Text(root), trail)
    }
  }

  /** Tokenizing a printed document with enough slots gives its preorder flattening:
      the right tokens, kinds, spans and sizes. */
  lemma RoundTrip(f: File, cap: nat)
    requires f.Valid() && TokenCount(f.root) <= cap
    ensures Tokenize(f.Print(), cap) == Tokens(TokensOf(f.root, |f.lead|))
  {
    var js := f.Print();
    assert At(js, 0, js);
    PrintIsLaid(js, f);
    LaidFileRuns(js, cap, f);
  }

  lemma PrintIsLaid(js: string, f: File)
    requires f.Valid() && At(js, 0, f.Print()) && |js| == |f.Print()|
    ensures LaidFile(js, f)
  {
    AtPadded(js, 0, f.lead, Text(f.root), f.trail);
    BlankIsRange(js, 0, f.lead);
    LenIsLength(f.root);
    BlankIsRange(js, |f.lead| + Len(f.root), f.trail);
    TextIsLaid(js, |f.lead|, f.root);
  }

  predicate LaidFile(js: string, f: File) {
    var q := |f.lead| + Len(f.root);
    && BlankRange(js, 0, |f.lead|) && Laid(js, |f.lead|, f.root)
    && BlankRange(js, q, q + |f.trail|) && |js| == q + |f.trail|
  }

  lemma FileRuns(js: string, cap: nat, L: Rel, f: File)
    requires Follows(js, cap, L)
    requires f.Valid() && TokenCount(f.root) <= cap && LaidFile(js, f)
    ensures Leads(js, L, Start, State(|js|, TokensOf(f.root, |f.lead|), -1))
  {
    SpaceRuns(js, cap, L, Start, |f.lead|);
    var s := Start.(pos := |f.lead|);
    ValueRuns(js, cap, L, s, f.root);
    var t := State(s.pos + Len(f.root), TokensOf(f.root, s.pos), -1);
    assert ValueTokens([], -1, f.root, s.pos) == t.toks;
    assert AfterValue(s, f.root) == t;
    SpaceRuns(js, cap, L, t, |f.trail|);
  }

  /** Two states the run has the same outcome from. */
  predicate SameOutcome(js: string, cap: nat, s: State, t: State) {
    s.Valid(js) ==> t.Valid(js) && Run(js, cap, s) == Run(js, cap, t)
  }

  lemma LaidFileRuns(js: string, cap: nat, f: File)
    requires f.Valid() && TokenCount(f.root) <= cap && LaidFile(js, f)
    ensures Tokenize(js, cap) == Tokens(TokensOf(f.root, |f.lead|))
  {
    var L: Rel := (s: State, t: State) => SameOutcome(js, cap, s, t);
    OutcomeFollows(js, cap, L);
    FileRuns(js, cap, L, f);
    TokensAreClosed(f.root, |f.lead|);
    var t := State(|js|, TokensOf(f.root, |f.lead|), -1);
    assert SameOutcome(js, cap, Start, t);
    NoneOpenLast(t.toks);
  }

  lemma OutcomeFollows(js: string, cap: nat, L: Rel)
    requires forall s, t :: L(s, t) == SameOutcome(js, cap, s, t)
    ensures Follows(js, cap, L)
  {
    forall s, t | OneStep(js, cap, s, t) ensures L(s, t) {
      assert SameOutcome(js, cap, s, t);
    }
    forall s ensures L(s, s) {
      assert SameOutcome(js, cap, s, s);
    }
    forall s, t, u | L(s, t) && L(t, u) ensures L(s, u) {
      assert SameOutcome(js, cap, s, t) && SameOutcome(js, cap, t, u);
    }
  }

  lemma {:induction false} NoneOpenLast(ts: seq<Token>)
    requires NoneOpen(ts)
    ensures LastOpen(ts) == -1
  {
    assert [] + ts == ts;
    LastOpenAppend([], ts);
  }
}
