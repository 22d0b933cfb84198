/**
 Slices: what a value's own stretch of the text tokenizes and parses to, alone and in its
 place.
 */
module Js2cSlices {
  import opened Jsmn
  import opened JsonDocument
  import opened JsmnRoundTrip
  import opened S = Js2cSchema
  import opened Js2cParser
  import opened Js2cConformance
  import opened Js2cEndToEnd

  // --------------------------------------------------------- values in values

  /** `d`, with its text at `p`, is `whole` (text at `q`) or some value inside it. */
  predicate PartOf(d: Doc, p: nat, whole: Doc, q: nat)
    decreases whole
  {
    (d == whole && p == q) ||
    match whole
    case Str(_) => false
    case Prim(_) => false
    case Arr(pad, items) => PartOfItems(d, p, items, q + 1 + |pad|)
    case Obj(pad, members) => PartOfMembers(d, p, members, q + 1 + |pad|)
  }

  predicate PartOfItems(d: Doc, p: nat, m: Items, q: nat)
    decreases m
  {
    m.Item? && (PartOf(d, p, m.value, q + |m.pre|) || PartOfItems(d, p, m.rest, NextItem(m, q)))
  }

  predicate PartOfMembers(d: Doc, p: nat, m: Members, q: nat)
    decreases m
  {
    m.Member? && (PartOf(d, p, m.value, ValueStart(m, q)) || PartOfMembers(d, p, m.rest, NextMember(m, q)))
  }

  lemma {:induction false} PartOfText(js: string, d: Doc, p: nat, whole: Doc, q: nat)
    requires PartOf(d, p, whole, q) && At(js, q, Text(whole)) && WellFormed(whole)
    ensures At(js, p, Text(d)) && WellFormed(d)
    decreases whole
  {
    if !(d == whole && p == q) {
      match whole
      case Arr(pad, items) =>
        AtEnclosed(js, q, "[", pad, ItemsText(items), "]");
        PartOfItemsText(js, d, p, items, q + 1 + |pad|);
      case Obj(pad, members) =>
        AtEnclosed(js, q, "{", pad, MembersText(members), "}");
        PartOfMembersText(js, d, p, members, q + 1 + |pad|);
    }
  }

  lemma {:induction false} PartOfItemsText(js: string, d: Doc, p: nat, m: Items, q: nat)
    requires PartOfItems(d, p, m, q) && At(js, q, ItemsText(m)) && ItemsWellFormed(m)
    ensures At(js, p, Text(d)) && WellFormed(d)
    decreases m
  {
    AtItem(js, q, m);
    if PartOf(d, p, m.value, q + |m.pre|) {
      PartOfText(js, d, p, m.value, q + |m.pre|);
    } else {
      AtMoreItems(js, NextItem(m, q) - 1, m.rest);
      PartOfItemsText(js, d, p, m.rest, NextItem(m, q));
    }
  }

  lemma {:induction false} PartOfMembersText(js: string, d: Doc, p: nat, m: Members, q: nat)
    requires PartOfMembers(d, p, m, q) && At(js, q, MembersText(m)) && MembersWellFormed(m)
    ensures At(js, p, Text(d)) && WellFormed(d)
    decreases m
  {
    AtMember(js, q, m);
    if PartOf(d, p, m.value, ValueStart(m, q)) {
      PartOfText(js, d, p, m.value, ValueStart(m, q));
    } else {
      AtMoreMembers(js, NextMember(m, q) - 1, m.rest);
      PartOfMembersText(js, d, p, m.rest, NextMember(m, q));
    }
  }

  /** A value's tokens are a stretch of the tokens of any value around it. */
  lemma {:induction false} PartOfTokens(ts: seq<Token>, cur: nat, d: Doc, p: nat, whole: Doc, q: nat) returns (at: nat)
    requires PartOf(d, p, whole, q) && Segment(ts, cur, TokensOf(whole, q))
    ensures Segment(ts, at, TokensOf(d, p))
    decreases whole
  {
    if d == whole && p == q {
      at := cur;
    } else {
      match whole
      case Arr(pad, items) =>
        SegmentSplit(ts, cur, [HeadToken(whole, q)], ItemTokens(items, q + 1 + |pad|));
        at := PartOfItemTokens(ts, cur + 1, d, p, items, q + 1 + |pad|);
      case Obj(pad, members) =>
        SegmentSplit(ts, cur, [HeadToken(whole, q)], MemberTokens(members, q + 1 + |pad|));
        at := PartOfMemberTokens(ts, cur + 1, d, p, members, q + 1 + |pad|);
    }
  }

  lemma {:induction false} PartOfItemTokens(
    ts: seq<Token>, cur: nat, d: Doc, p: nat, m: Items, q: nat) returns (at: nat)
    requires PartOfItems(d, p, m, q) && Segment(ts, cur, ItemTokens(m, q))
    ensures Segment(ts, at, TokensOf(d, p))
    decreases m
  {
    var front := TokensOf(m.value, q + |m.pre|);
    SegmentSplit(ts, cur, front, ItemTokens(m.rest, NextItem(m, q)));
    if PartOf(d, p, m.value, q + |m.pre|) {
      at := PartOfTokens(ts, cur, d, p, m.value, q + |m.pre|);
    } else {
      at := PartOfItemTokens(ts, cur + |front|, d, p, m.rest, NextItem(m, q));
    }
  }

  lemma {:induction false} PartOfMemberTokens(
    ts: seq<Token>, cur: nat, d: Doc, p: nat, m: Members, q: nat) returns (at: nat)
    requires PartOfMembers(d, p, m, q) && Segment(ts, cur, MemberTokens(m, q))
    ensures Segment(ts, at, TokensOf(d, p))
    decreases m
  {
    var v := TokensOf(m.value, ValueStart(m, q));
    SegmentSplit(ts, cur, [KeyToken(m, q)], v + MemberTokens(m.rest, NextMember(m, q)));
    SegmentSplit(ts, cur + 1, v, MemberTokens(m.rest, NextMember(m, q)));
    if PartOf(d, p, m.value, ValueStart(m, q)) {
      at := PartOfTokens(ts, cur + 1, d, p, m.value, ValueStart(m, q));
    } else {
      at := PartOfMemberTokens(ts, cur + 1 + |v|, d, p, m.rest, NextMember(m, q));
    }
  }

  // ------------------------------------------------------------------ shifting

  function Moved(t: Token, k: nat): Token {
    t.(start := t.start + k, end := t.end + k)
  }

  function Shift(ts: seq<Token>, k: nat): (r: seq<Token>)
    ensures |r| == |ts|
    ensures forall i :: 0 <= i < |ts| ==> r[i] == Moved(ts[i], k)
  {
    seq(|ts|, i requires 0 <= i < |ts| => Moved(ts[i], k))
  }

  lemma ShiftAppend(a: seq<Token>, b: seq<Token>, k: nat)
    ensures Shift(a + b, k) == Shift(a, k) + Shift(b, k)
  {
  }

  /** Where a value stands only moves its tokens. */
  lemma {:induction false} TokensShift(d: Doc, p: nat, k: nat)
    ensures TokensOf(d, p + k) == Shift(TokensOf(d, p), k)
    decreases d
  {
    match d
    case Str(_) =>
    case Prim(_) =>
    case Arr(pad, items) =>
      ItemTokensShift(items, p + 1 + |pad|, k);
      ShiftAppend([HeadToken(d, p)], ItemTokens(items, p + 1 + |pad|), k);
    case Obj(pad, members) =>
      MemberTokensShift(members, p + 1 + |pad|, k);
      ShiftAppend([HeadToken(d, p)], MemberTokens(members, p + 1 + |pad|), k);
  }

  lemma {:induction false} ItemTokensShift(m: Items, p: nat, k: nat)
    ensures ItemTokens(m, p + k) == Shift(ItemTokens(m, p), k)
    decreases m
  {
    if m.Item? {
      TokensShift(m.value, p + |m.pre|, k);
      ItemTokensShift(m.rest, NextItem(m, p), k);
      ShiftAppend(TokensOf(m.value, p + |m.pre|), ItemTokens(m.rest, NextItem(m, p)), k);
    }
  }

  lemma {:induction false} MemberTokensShift(m: Members, p: nat, k: nat)
    ensures MemberTokens(m, p + k) == Shift(MemberTokens(m, p), k)
    decreases m
  {
    if m.Member? {
      var v, rest := TokensOf(m.value, ValueStart(m, p)), MemberTokens(m.rest, NextMember(m, p));
      TokensShift(m.value, ValueStart(m, p), k);
      MemberTokensShift(m.rest, NextMember(m, p), k);
      ShiftAppend(v, rest, k);
      ShiftAppend([KeyToken(m, p)], v + rest, k);
    }
  }

  lemma PartStands(f: File, d: Doc, p: nat)
    requires f.Valid() && PartOf(d, p, f.root, |f.lead|)
    ensures At(f.Print(), p, Text(d)) && WellFormed(d)
  {
    var js := f.Print();
    assert At(js, 0, js);
    AtPadded(js, 0, f.lead, Text(f.root), f.trail);
    PartOfText(js, d, p, f.root, |f.lead|);
  }

  /** A part's span, in the printed file, is exactly its text. */
  lemma PartSpan(f: File, d: Doc, p: nat)
    requires f.Valid() && PartOf(d, p, f.root, |f.lead|) && Bracketed(d)
    ensures WellFormed(d) && p + Len(d) <= |f.Print()| && f.Print()[p..p + Len(d)] == Text(d)
    ensures HeadToken(d, p).start == p && HeadToken(d, p).end == p + Len(d)
  {
    PartStands(f, d, p);
    LenIsLength(d);
    AtSlice(f.Print(), p, Text(d));
  }

  lemma PartTokens(f: File, d: Doc, p: nat) returns (at: nat)
    requires PartOf(d, p, f.root, |f.lead|)
    ensures var ts := TokensOf(f.root, |f.lead|);
            at + TokenCount(d) <= |ts| && ts[at] == HeadToken(d, p) && ts[at..at + TokenCount(d)] == TokensOf(d, p)
  {
    var ts := TokensOf(f.root, |f.lead|);
    at := PartOfTokens(ts, 0, d, p, f.root, |f.lead|);
    TokenCountIsLength(d, p);
    SegmentSlice(ts, at, TokensOf(d, p));
  }

  /** The slice a bracketed value's own token records, tokenized alone, gives that value's
      stretch of the whole document's tokens, moved back to the start. */
  lemma SliceRetokenizes(f: File, d: Doc, p: nat, cap: nat) returns (at: nat)
    requires f.Valid() && Bracketed(d) && PartOf(d, p, f.root, |f.lead|) && TokenCount(d) <= cap
    ensures var js, ts := f.Print(), TokensOf(f.root, |f.lead|);
      && at + TokenCount(d) <= |ts|
      && ts[at] == HeadToken(d, p) && ts[at].start == p
      && p <= ts[at].end <= |js|
      && js[p..ts[at].end] == Text(d)
      && Tokenize(js[p..ts[at].end], cap).Tokens?
      && ts[at..at + TokenCount(d)] == Shift(Tokenize(js[p..ts[at].end], cap).toks, p)
  {
    PartSpan(f, d, p);
    at := PartTokens(f, d, p);
    TokensShift(d, 0, p);
    AloneRetokenizes(d, cap);
  }

  lemma SegmentSlice(ts: seq<Token>, cur: nat, a: seq<Token>)
    requires Segment(ts, cur, a) && a != []
    ensures ts[cur..cur + |a|] == a && ts[cur] == a[0]
  {
  }

  lemma AloneRetokenizes(d: Doc, cap: nat)
    requires WellFormed(d) && Bracketed(d) && TokenCount(d) <= cap
    ensures Tokenize(Text(d), cap) == Tokens(TokensOf(d, 0))
  {
    var f := File("", d, "");
    assert f.Print() == Text(d);
    RoundTrip(f, cap);
  }

  // ------------------------------------------------------------ stored values

  /** A stored value with every slice moved. */
  function ShiftOut(o: Out, k: int): Out {
    match o
    case Value(_) => o
    case Nothing => o
    case Slice(index, length) => Slice(index + k, length)
    case List(items) => List(seq(|items|, i requires 0 <= i < |items| => ShiftOut(items[i], k)))
    case Record(fields) => Record(map name | name in fields :: ShiftOut(fields[name], k))
    case Choice(option, out) => Choice(option, ShiftOut(out, k))
  }

  /** No slice anywhere in it: moving it changes nothing. */
  ghost predicate Fixed(o: Out) {
    forall k: int :: ShiftOut(o, k) == o
  }

  /** A raw value has no default, so no default holds a slice. */
  ghost predicate FixedDefaults(s: Schema) {
    match s
    case Leaf(_, _, _) => true
    case Raw => true
    case Void => true
    case Array(item, _, _, dflt) => (dflt.Some? ==> Fixed(dflt.value)) && FixedDefaults(item)
    case Object(fields, _, _, dflt) =>
      (dflt.Some? ==> Fixed(dflt.value)) && forall i :: 0 <= i < |fields| ==> FixedDefaults(fields[i].schema)
    case Union(options) => forall i :: 0 <= i < |options| ==> FixedDefaults(options[i])
  }

  lemma {:induction false} DefaultIsFixed(s: Schema, k: int)
    requires HasDefault(s) && FixedDefaults(s)
    ensures ShiftOut(DefaultOf(s), k) == DefaultOf(s)
    decreases s
  {
    if s.Object? && s.js2cDefault.None? {
      forall name | name in FieldNames(s.fields)
        ensures var f := s.fields[FieldIndex(s.fields, name)].schema; ShiftOut(DefaultOf(f), k) == DefaultOf(f)
      {
        DefaultIsFixed(s.fields[FieldIndex(s.fields, name)].schema, k);
      }
    }
  }

  lemma ShiftCons(a: Out, rest: seq<Out>, moved: seq<Out>, k: int)
    requires List(moved) == ShiftOut(List(rest), k)
    ensures List([ShiftOut(a, k)] + moved) == ShiftOut(List([a] + rest), k)
  {
    assert forall i | 0 <= i < |rest| :: moved[i] == ShiftOut(rest[i], k);
  }

  lemma ShiftRecord(a: map<string, Out>, moved: map<string, Out>, k: int)
    requires a.Keys == moved.Keys && forall name :: name in a ==> moved[name] == ShiftOut(a[name], k)
    ensures Record(moved) == ShiftOut(Record(a), k)
  {
    assert moved == map name | name in a :: ShiftOut(a[name], k);
  }

  /** Where a value stands only moves the slices stored for it. */
  lemma {:induction false} DecodeShift(env: Env, s: Schema, d: Doc, p: nat, k: nat)
    requires Conforms(env, s, d) && FixedDefaults(s)
    ensures Decode(env, s, d, p + k) == ShiftOut(Decode(env, s, d, p), k)
    decreases s, 5
  {
    match s
    case Leaf(_, _, _) =>
    case Raw =>
    case Void =>
    case Array(_, _, _, _) => ArrayShift(env, s, d, p, k);
    case Object(_, _, _, _) => 
      ObjectTwice(env, s, d, p, p + k, k, d.members, p + 1 + |d.pad|, p + k + 1 + |d.pad|,
                  Decode(env, s, d, p), Decode(env, s, d, p + k));
    case Union(_) => OptionShift(env, s, d, p, k);
  }

  lemma {:induction false} ArrayShift(env: Env, s: Schema, d: Doc, p: nat, k: nat)
    requires s.Array? && Conforms(env, s, d) && FixedDefaults(s)
    ensures Decode(env, s, d, p + k) == ShiftOut(Decode(env, s, d, p), k)
    decreases s, 2
  {
    var q := p + 1 + |d.pad|;
    ItemsShift(env, s.item, d.items, q, k);
    assert Decode(env, s, d, p) == List(DecodeItems(env, s.item, d.items, q));
    assert p + k + 1 + |d.pad| == q + k;
    assert Decode(env, s, d, p + k) == List(DecodeItems(env, s.item, d.items, q + k));
  }

  lemma ObjectDecodes(env: Env, s: Schema, d: Doc, p: nat, m: Members, q: nat, o: Out)
    requires s.Object? && Conforms(env, s, d) && m == d.members && q == p + 1 + |d.pad| && o == Decode(env, s, d, p)
    ensures MembersConform(env, s, m) && o == Record(DecodeFields(env, s, m, q))
  {
  }

  /** Two places of the same object, what is stored at each taken in turn. */
  lemma {:induction false} ObjectTwice(
    env: Env, s: Schema, d: Doc, p: nat, p2: nat, k: nat, m: Members, q: nat, q2: nat, a: Out, b: Out)
    requires s.Object? && Conforms(env, s, d) && FixedDefaults(s) && a == Decode(env, s, d, p)
    requires b == Decode(env, s, d, p2)
    requires m == d.members && q == p + 1 + |d.pad| && q2 == p2 + 1 + |d.pad| && q2 == q + k
    ensures b == ShiftOut(a, k)
    decreases s, 4
  {
    ObjectDecodes(env, s, d, p2, m, q2, b);
    ObjectShift(env, s, d, p, k, m, q, q2, a, b);
  }

  lemma {:induction false} ObjectShift(
    env: Env, s: Schema, d: Doc, p: nat, k: nat, m: Members, q: nat, q2: nat, a: Out, b: Out)
    requires s.Object? && Conforms(env, s, d) && FixedDefaults(s) && a == Decode(env, s, d, p)
    requires m == d.members && q == p + 1 + |d.pad| && q2 == q + k
    requires MembersConform(env, s, m) && b == Record(DecodeFields(env, s, m, q2))
    ensures b == ShiftOut(a, k)
    decreases s, 3
  {
    ObjectDecodes(env, s, d, p, m, q, a);
    RecordShift(env, s, m, q, q2, k, a, b);
  }

  lemma {:induction false} RecordShift(env: Env, s: Schema, m: Members, q: nat, q2: nat, k: nat, a: Out, b: Out)
    requires s.Object? && MembersConform(env, s, m) && FixedDefaults(s) && q2 == q + k
    requires a == Record(DecodeFields(env, s, m, q)) && b == Record(DecodeFields(env, s, m, q2))
    ensures b == ShiftOut(a, k)
    decreases s, 2
  {
    FieldsShift(env, s, m, q, q2, k);
  }

  lemma {:induction false} OptionShift(env: Env, s: Schema, d: Doc, p: nat, k: nat)
    requires s.Union? && Conforms(env, s, d) && FixedDefaults(s)
    ensures Decode(env, s, d, p + k) == ShiftOut(Decode(env, s, d, p), k)
    decreases s, 2
  {
    var option := FirstOption(env, s, d, 0);
    DecodeShift(env, s.options[option], d, p, k);
  }

  lemma {:induction false} ItemsShift(env: Env, item: Schema, m: Items, p: nat, k: nat)
    requires ItemsConform(env, item, m) && FixedDefaults(item)
    ensures List(DecodeItems(env, item, m, p + k)) == ShiftOut(List(DecodeItems(env, item, m, p)), k)
    decreases item, 6, m
  {
    if m.Item? {
      DecodeShift(env, item, m.value, p + |m.pre|, k);
      ItemsShift(env, item, m.rest, NextItem(m, p), k);
      ShiftCons(Decode(env, item, m.value, p + |m.pre|), DecodeItems(env, item, m.rest, NextItem(m, p)),
                DecodeItems(env, item, m.rest, NextItem(m, p) + k), k);
    }
  }

  lemma {:induction false} MemberStartShift(m: Members, p: nat, k: nat, name: string)
    requires HasKey(m, name)
    ensures MemberStart(m, p + k, name) == MemberStart(m, p, name) + k
    decreases m
  {
    if m.key != name {
      MemberStartShift(m.rest, NextMember(m, p), k, name);
    }
  }

  lemma {:induction false} FieldsShift(env: Env, s: Schema, m: Members, p: nat, p2: nat, k: nat)
    requires s.Object? && MembersConform(env, s, m) && FixedDefaults(s) && p2 == p + k
    ensures Record(DecodeFields(env, s, m, p2)) == ShiftOut(Record(DecodeFields(env, s, m, p)), k)
    decreases s, 1
  {
    var a, b := DecodeFields(env, s, m, p), DecodeFields(env, s, m, p2);
    forall name | name in a ensures b[name] == ShiftOut(a[name], k) {
      FieldShift(env, s, m, p, k, name);
    }
    ShiftRecord(a, b, k);
  }

  lemma {:induction false} FieldShift(env: Env, s: Schema, m: Members, p: nat, k: nat, name: string)
    requires s.Object? && MembersConform(env, s, m) && FixedDefaults(s) && StoredFor(s, m, name)
    ensures DecodeField(env, s, m, p + k, name) == ShiftOut(DecodeField(env, s, m, p, name), k)
    decreases s, 0
  {
    var f := s.fields[FieldIndex(s.fields, name)].schema;
    assert FixedDefaults(f);
    if HasKey(m, name) {
      MemberConforms(env, s, m, name);
      MemberStartShift(m, p, k, name);
      DecodeShift(env, f, MemberOf(m, name).value, ValueStart(MemberOf(m, name), MemberStart(m, p, name)), k);
    } else {
      DefaultIsFixed(f, k);
    }
  }
}
