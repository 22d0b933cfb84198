/**
 From text to stored values: the tokenizer and the generated parser together, on every
 printed document and for every token buffer.
 */
module Js2cEndToEnd {
  import opened Options
  import opened Jsmn
  import opened JsonDocument
  import opened JsmnRoundTrip
  import opened Js2cRuntime
  import opened S = Js2cSchema
  import opened Js2cParser
  import opened Js2cConformance

  // ------------------------------------------------- the document's own tokens

  /** `a` stands at index `cur` of `ts`. */
  predicate Segment(ts: seq<Token>, cur: nat, a: seq<Token>) {
    && cur + |a| <= |ts|
    && forall i {:trigger a[i]} :: 0 <= i < |a| ==> ts[cur + i] == a[i]
  }

  lemma SegmentSplit(ts: seq<Token>, cur: nat, a: seq<Token>, b: seq<Token>)
    requires Segment(ts, cur, a + b)
    ensures Segment(ts, cur, a) && Segment(ts, cur + |a|, b)
  {
    forall i | 0 <= i < |a| ensures ts[cur + i] == a[i] {
      assert (a + b)[i] == a[i];
    }
    forall i | 0 <= i < |b| ensures ts[cur + |a| + i] == b[i] {
      assert (a + b)[|a| + i] == b[i];
    }
  }

  lemma SegmentHead(ts: seq<Token>, cur: nat, t: Token)
    requires Segment(ts, cur, [t])
    ensures cur < |ts| && ts[cur] == t
  {
    assert [t][0] == t;
  }

  lemma AtSlice(js: string, p: nat, t: string)
    requires At(js, p, t)
    ensures js[p..p + |t|] == t
  {
  }

  lemma {:induction false} TextStands(js: string, ts: seq<Token>, cur: nat, p: nat, d: Doc)
    requires At(js, p, Text(d)) && Segment(ts, cur, TokensOf(d, p))
    ensures Stands(js, ts, cur, p, d)
    decreases d
  {
    match d
    case Str(body) =>
      SegmentHead(ts, cur, HeadToken(d, p));
      AtQuoted(js, p, body);
      AtSlice(js, p + 1, body);
    case Prim(text) =>
      SegmentHead(ts, cur, HeadToken(d, p));
      AtSlice(js, p, text);
    case Arr(pad, items) =>
      AtEnclosed(js, p, "[", pad, ItemsText(items), "]");
      SegmentSplit(ts, cur, [HeadToken(d, p)], ItemTokens(items, p + 1 + |pad|));
      SegmentHead(ts, cur, HeadToken(d, p));
      ItemsStand(js, ts, cur + 1, p + 1 + |pad|, items);
    case Obj(pad, members) =>
      AtEnclosed(js, p, "{", pad, MembersText(members), "}");
      SegmentSplit(ts, cur, [HeadToken(d, p)], MemberTokens(members, p + 1 + |pad|));
      SegmentHead(ts, cur, HeadToken(d, p));
      MembersStand(js, ts, cur + 1, p + 1 + |pad|, members);
  }

  lemma {:induction false} ItemsStand(js: string, ts: seq<Token>, cur: nat, p: nat, m: Items)
    requires At(js, p, ItemsText(m)) && Segment(ts, cur, ItemTokens(m, p))
    ensures StandItems(js, ts, cur, p, m)
    decreases m
  {
    if m.Item? {
      AtItem(js, p, m);
      SegmentSplit(ts, cur, TokensOf(m.value, p + |m.pre|), ItemTokens(m.rest, NextItem(m, p)));
      TokenCountIsLength(m.value, p + |m.pre|);
      TextStands(js, ts, cur, p + |m.pre|, m.value);
      if m.rest.Item? {
        AtMoreItems(js, NextItem(m, p) - 1, m.rest);
        ItemsStand(js, ts, cur + TokenCount(m.value), NextItem(m, p), m.rest);
      }
    }
  }

  lemma {:induction false} MembersStand(js: string, ts: seq<Token>, cur: nat, p: nat, m: Members)
    requires At(js, p, MembersText(m)) && Segment(ts, cur, MemberTokens(m, p))
    ensures StandMembers(js, ts, cur, p, m)
    decreases m
  {
    if m.Member? {
      KeyStands(js, ts, cur, p, m);
      TextStands(js, ts, cur + 1, ValueStart(m, p), m.value);
      if m.rest.Member? {
        MembersStand(js, ts, cur + 1 + TokenCount(m.value), NextMember(m, p), m.rest);
      }
    }
  }

  lemma KeyStands(js: string, ts: seq<Token>, cur: nat, p: nat, m: Members)
    requires m.Member? && At(js, p, MembersText(m)) && Segment(ts, cur, MemberTokens(m, p))
    ensures cur < |ts| && ts[cur] == KeyToken(m, p) && TokenText(js, ts[cur]) == m.key
    ensures At(js, ValueStart(m, p), Text(m.value)) && Segment(ts, cur + 1, TokensOf(m.value, ValueStart(m, p)))
    ensures m.rest.Member? ==> At(js, NextMember(m, p), MembersText(m.rest))
    ensures Segment(ts, cur + 1 + TokenCount(m.value), MemberTokens(m.rest, NextMember(m, p)))
  {
    MemberSegments(ts, cur, p, m);
    MemberTexts(js, p, m);
  }

  lemma MemberTexts(js: string, p: nat, m: Members)
    requires m.Member? && At(js, p, MembersText(m))
    ensures TokenText(js, KeyToken(m, p)) == m.key
    ensures At(js, ValueStart(m, p), Text(m.value))
    ensures m.rest.Member? ==> At(js, NextMember(m, p), MembersText(m.rest))
  {
    AtMember(js, p, m);
    AtQuoted(js, p + |m.pre|, m.key);
    AtSlice(js, p + |m.pre| + 1, m.key);
    if m.rest.Member? {
      AtMoreMembers(js, NextMember(m, p) - 1, m.rest);
    }
  }

  lemma MemberSegments(ts: seq<Token>, cur: nat, p: nat, m: Members)
    requires m.Member? && Segment(ts, cur, MemberTokens(m, p))
    ensures cur < |ts| && ts[cur] == KeyToken(m, p)
    ensures Segment(ts, cur + 1, TokensOf(m.value, ValueStart(m, p)))
    ensures Segment(ts, cur + 1 + TokenCount(m.value), MemberTokens(m.rest, NextMember(m, p)))
  {
    var v := TokensOf(m.value, ValueStart(m, p));
    var back := MemberTokens(m.rest, NextMember(m, p));
    SegmentSplit(ts, cur, [KeyToken(m, p)], v + back);
    SegmentHead(ts, cur, KeyToken(m, p));
    SegmentSplit(ts, cur + 1, v, back);
    TokenCountIsLength(m.value, ValueStart(m, p));
  }

  // -------------------------------------------------------- the token buffer

  lemma StepSlots(js: string, cap: nat, more: nat, s: State)
    requires s.Valid(js) && s.pos < |js| && |s.toks| <= cap <= more
    requires Step(js, cap, s).Next?
    ensures |Step(js, cap, s).st.toks| <= cap
    ensures Step(js, more, s) == Step(js, cap, s)
  {
  }

  /** More slots change nothing once the run succeeds; it never fills more than it has. */
  lemma {:induction false} RunSlots(js: string, cap: nat, more: nat, s: State)
    requires s.Valid(js) && |s.toks| <= cap <= more && Run(js, cap, s).Tokens?
    ensures |Run(js, cap, s).toks| <= cap
    ensures Run(js, more, s) == Run(js, cap, s)
    decreases |js| - s.pos
  {
    if !AtEnd(js, s) {
      StepSlots(js, cap, more, s);
      RunSlots(js, cap, more, Step(js, cap, s).st);
    }
  }

  lemma StepFewer(js: string, cap: nat, more: nat, s: State)
    requires s.Valid(js) && s.pos < |js| && cap <= more && Step(js, more, s).Next?
    ensures Step(js, cap, s) == Step(js, more, s) || Step(js, cap, s) == Fail(NoMem)
  {
  }

  /** With fewer slots a run that would succeed gives the same tokens or runs out of them. */
  lemma {:induction false} RunFewer(js: string, cap: nat, more: nat, s: State)
    requires s.Valid(js) && cap <= more && Run(js, more, s).Tokens?
    ensures Run(js, cap, s) == Run(js, more, s) || (Run(js, cap, s).Failed? && Run(js, cap, s).error == NoMem)
    decreases |js| - s.pos
  {
    if !AtEnd(js, s) {
      StepFewer(js, cap, more, s);
      RunFewer(js, cap, more, Step(js, more, s).st);
    }
  }

  /** A printed document needs exactly its token count: with fewer slots it is refused for
      want of tokens, and for no other reason. */
  lemma TooFewSlots(f: File, cap: nat)
    requires f.Valid() && cap < TokenCount(f.root)
    ensures Tokenize(f.Print(), cap).Failed? && Tokenize(f.Print(), cap).error == NoMem
  {
    RoundTrip(f, TokenCount(f.root));
    TokenCountIsLength(f.root, |f.lead|);
    RunFewer(f.Print(), cap, TokenCount(f.root), Start);
    if Tokenize(f.Print(), cap).Tokens? {
      RunSlots(f.Print(), cap, TokenCount(f.root), Start);
    }
  }

  // ------------------------------------------------------------- the theorem

  /** The generated parser accepts a printed document exactly when its tokens fit the
      buffer and it conforms to the schema, and then stores what the schema says. */
  lemma RootDecides(env: Env, s: Schema, slots: nat, f: File)
    requires f.Valid() && Generates(s, env.allowUnknown)
    ensures var r := ParseRoot(env, s, slots, f.Print());
            if TokenCount(f.root) <= slots && Conforms(env, s, f.root)
            then r == Accept(TokenCount(f.root), Decode(env, s, f.root, |f.lead|))
            else r.Reject?
  {
    if TokenCount(f.root) <= slots {
      RoundTrip(f, slots);
      var js, ts := f.Print(), TokensOf(f.root, |f.lead|);
      RootStands(js, ts, f);
      ParserDecides(env, js, ts, s, 0, f.root, |f.lead|);
    } else {
      TooFewSlots(f, slots);
    }
  }

  /** An array is accepted exactly when it fits, has neither too few items nor too many, and
      every one of them conforms. */
  lemma RootArray(env: Env, s: Schema, slots: nat, f: File)
    requires f.Valid() && s.Array? && Generates(s, env.allowUnknown)
    ensures ParseRoot(env, s, slots, f.Print()).Accept? <==>
            && f.root.Arr? && TokenCount(f.root) <= slots
            && s.minItems <= ItemCount(f.root.items) <= s.maxItems
            && forall i :: 0 <= i < ItemCount(f.root.items) ==> ConformsAt(env, s.item, f.root.items, i)
  {
    RootDecides(env, s, slots, f);
    if f.root.Arr? {
      EveryItem(env, s.item, f.root.items);
    }
  }

  function ItemAt(m: Items, i: nat): Doc
    requires i < ItemCount(m)
  {
    if i == 0 then m.value else ItemAt(m.rest, i - 1)
  }

  /** The item at `i` conforms. */
  predicate ConformsAt(env: Env, item: Schema, m: Items, i: nat)
    requires i < ItemCount(m)
  {
    Conforms(env, item, ItemAt(m, i))
  }

  lemma FirstItem(env: Env, item: Schema, m: Items)
    requires m.Item?
    ensures ConformsAt(env, item, m, 0) == Conforms(env, item, m.value)
  {
    assert ItemAt(m, 0) == m.value;
  }

  lemma LaterItem(env: Env, item: Schema, m: Items, i: nat)
    requires m.Item? && i < ItemCount(m.rest)
    ensures ConformsAt(env, item, m, i + 1) == ConformsAt(env, item, m.rest, i)
  {
    assert ItemAt(m, i + 1) == ItemAt(m.rest, i);
  }

  lemma {:induction false} EveryItem(env: Env, item: Schema, m: Items)
    ensures ItemsConform(env, item, m) == forall i :: 0 <= i < ItemCount(m) ==> ConformsAt(env, item, m, i)
    decreases m
  {
    if m.Item? {
      EveryItem(env, item, m.rest);
      FirstItem(env, item, m);
      forall i: nat | i < ItemCount(m.rest)
        ensures ConformsAt(env, item, m, i + 1) == ConformsAt(env, item, m.rest, i)
      {
        LaterItem(env, item, m, i);
      }
      var every := forall i :: 0 <= i < ItemCount(m) ==> ConformsAt(env, item, m, i);
      if every {
        forall i: nat | i < ItemCount(m.rest) ensures ConformsAt(env, item, m.rest, i) {
          assert ConformsAt(env, item, m, i + 1);
        }
      } else {
        var i: nat :| i < ItemCount(m) && !ConformsAt(env, item, m, i);
        if i > 0 {
          LaterItem(env, item, m, i - 1);
        }
      }
    }
  }

  /** How often a key occurs. */
  function Occurs(m: Members, key: string): nat {
    if m.NoMembers? then 0 else (if m.key == key then 1 else 0) + Occurs(m.rest, key)
  }

  lemma {:induction false} OnceAtMost(env: Env, s: Schema, m: Members, key: string)
    requires s.Object? && MembersConform(env, s, m) && Declared(s.fields, key)
    ensures Occurs(m, key) == if HasKey(m, key) then 1 else 0
    decreases m
  {
    if m.Member? {
      OnceAtMost(env, s, m.rest, key);
    }
  }

  /** A declared key that occurs twice is refused, whatever its values. */
  lemma RepeatedKeyIsRefused(env: Env, s: Schema, slots: nat, f: File, key: string)
    requires f.Valid() && s.Object? && Generates(s, env.allowUnknown) && f.root.Obj?
    requires Declared(s.fields, key) && Occurs(f.root.members, key) > 1
    ensures ParseRoot(env, s, slots, f.Print()).Reject?
  {
    RootDecides(env, s, slots, f);
    if Conforms(env, s, f.root) {
      OnceAtMost(env, s, f.root.members, key);
    }
  }

  lemma RootStands(js: string, ts: seq<Token>, f: File)
    requires js == f.Print() && ts == TokensOf(f.root, |f.lead|)
    ensures Stands(js, ts, 0, |f.lead|, f.root)
  {
    assert At(js, 0, js);
    AtPadded(js, 0, f.lead, Text(f.root), f.trail);
    TextStands(js, ts, 0, |f.lead|, f.root);
  }

  // ------------------------------------------------------------ token budget

  /** What the accounting allows for: declared keys only, each at most once, no more items
      than permitted, and only scalars where the value is stored raw or dropped. */
  predicate Plain(s: Schema, d: Doc)
    decreases s, 2
  {
    match s
    case Leaf(_, _, _) => !Bracketed(d)
    case Raw => !Bracketed(d)
    case Void => !Bracketed(d)
    case Array(item, _, maxItems, _) => d.Arr? && ItemCount(d.items) <= maxItems && PlainItems(item, d.items)
    case Object(_, _, _, _) => d.Obj? && PlainMembers(s, d.members)
    case Union(options) => exists k :: 0 <= k < |options| && Plain(options[k], d)
  }

  predicate PlainItems(item: Schema, m: Items)
    decreases item, 3, m
  {
    m.Item? ==> Plain(item, m.value) && PlainItems(item, m.rest)
  }

  predicate PlainMembers(s: Schema, m: Members)
    requires s.Object?
    decreases s, 1, m
  {
    m.Member? ==>
      && Declared(s.fields, m.key) && Plain(s.fields[FieldIndex(s.fields, m.key)].schema, m.value)
      && !HasKey(m.rest, m.key) && PlainMembers(s, m.rest)
  }

  /** What the fields from `k` on take, leaving out those already used. */
  function UnusedTokens(s: Schema, k: nat, used: set<string>): nat
    requires s.Object? && k <= |s.fields|
    decreases |s.fields| - k
  {
    if k == |s.fields| then 0
    else (if s.fields[k].name in used then 0 else 1 + MaxTokens(s.fields[k].schema)) + UnusedTokens(s, k + 1, used)
  }

  lemma {:induction false} NothingUsed(s: Schema, k: nat)
    requires s.Object? && k <= |s.fields|
    ensures UnusedTokens(s, k, {}) == MaxFieldTokens(s, k)
    decreases |s.fields| - k
  {
    if k < |s.fields| {
      NothingUsed(s, k + 1);
    }
  }

  /** Using a field's name gives up at least that field's tokens. */
  lemma {:induction false} UseField(s: Schema, k: nat, used: set<string>, name: string)
    requires s.Object? && k <= |s.fields| && Declared(s.fields, name) && name !in used
    ensures var i := FieldIndex(s.fields, name);
            UnusedTokens(s, k, used) >=
            UnusedTokens(s, k, used + {name}) + if k <= i then 1 + MaxTokens(s.fields[i].schema) else 0
    decreases |s.fields| - k
  {
    if k < |s.fields| {
      UseField(s, k + 1, used, name);
    }
  }

  lemma {:induction false} PlainFits(s: Schema, d: Doc)
    requires Plain(s, d)
    ensures TokenCount(d) <= MaxTokens(s)
    decreases s, 2
  {
    match s
    case Leaf(_, _, _) =>
    case Raw =>
    case Void =>
    case Array(item, _, maxItems, _) =>
      PlainItemsFit(item, d.items);
      MulMonotone(ItemCount(d.items), maxItems, MaxTokens(item));
    case Object(_, _, _, _) =>
      PlainMembersFit(s, d.members, {});
      NothingUsed(s, 0);
    case Union(options) =>
      var k :| 0 <= k < |options| && Plain(options[k], d);
      PlainFits(options[k], d);
      OptionFits(s, 0, k);
  }

  lemma MulMonotone(a: nat, b: nat, c: nat)
    requires a <= b
    ensures a * c <= b * c
  {
  }

  lemma {:induction false} OptionFits(s: Schema, j: nat, k: nat)
    requires s.Union? && j <= k < |s.options|
    ensures MaxTokens(s.options[k]) <= MaxOptionTokens(s, j)
    decreases k - j
  {
    if j < k {
      OptionFits(s, j + 1, k);
    }
  }

  lemma {:induction false} PlainItemsFit(item: Schema, m: Items)
    requires PlainItems(item, m)
    ensures ItemTokenCount(m) <= ItemCount(m) * MaxTokens(item)
    decreases item, 3, m
  {
    if m.Item? {
      PlainFits(item, m.value);
      PlainItemsFit(item, m.rest);
      assert ItemCount(m) * MaxTokens(item) == MaxTokens(item) + ItemCount(m.rest) * MaxTokens(item);
    }
  }

  /** No key of `m` is in `used`. */
  predicate Unused(m: Members, used: set<string>) {
    m.Member? ==> m.key !in used && Unused(m.rest, used)
  }

  lemma {:induction false} StillUnused(m: Members, used: set<string>, key: string)
    requires Unused(m, used) && !HasKey(m, key)
    ensures Unused(m, used + {key})
    decreases m
  {
    if m.Member? {
      StillUnused(m.rest, used, key);
    }
  }

  lemma {:induction false} UnusedNothing(m: Members)
    ensures Unused(m, {})
    decreases m
  {
    if m.Member? {
      UnusedNothing(m.rest);
    }
  }

  lemma {:induction false} PlainMembersFit(s: Schema, m: Members, used: set<string>)
    requires s.Object? && PlainMembers(s, m) && (used == {} || Unused(m, used))
    ensures MemberTokenCount(m) <= UnusedTokens(s, 0, used)
    decreases s, 1, m
  {
    if m.Member? {
      UnusedNothing(m);
      StillUnused(m.rest, used, m.key);
      PlainFits(s.fields[FieldIndex(s.fields, m.key)].schema, m.value);
      PlainMembersFit(s, m.rest, used + {m.key});
      UseField(s, 0, used, m.key);
    }
  }

  /** The size of the buffer the root generator declares. */
  function Slots(s: Schema, allow: Option<nat>): nat {
    MaxTokens(s) + if allow.Some? then allow.value else 0
  }

  /** A conforming document without extra keys or raw brackets is never refused for size. */
  lemma PlainIsAccepted(env: Env, s: Schema, allow: Option<nat>, f: File)
    requires f.Valid() && Generates(s, env.allowUnknown) && Plain(s, f.root) && Conforms(env, s, f.root)
    ensures ParseRoot(env, s, Slots(s, allow), f.Print()) ==
            Accept(TokenCount(f.root), Decode(env, s, f.root, |f.lead|))
  {
    PlainFits(s, f.root);
    RootDecides(env, s, Slots(s, allow), f);
  }

  /** No raw or void anywhere. */
  predicate AllTyped(s: Schema) {
    match s
    case Leaf(_, _, _) => true
    case Raw => false
    case Void => false
    case Array(item, _, _, _) => AllTyped(item)
    case Object(fields, _, _, _) => forall i :: 0 <= i < |fields| ==> AllTyped(fields[i].schema)
    case Union(options) => forall i :: 0 <= i < |options| ==> AllTyped(options[i])
  }

  /** Without those, and without unknown keys, conforming is enough. */
  lemma {:induction false} ConformsIsPlain(env: Env, s: Schema, d: Doc)
    requires !env.allowUnknown && AllTyped(s) && Conforms(env, s, d)
    ensures Plain(s, d)
    decreases s, 2
  {
    match s
    case Leaf(_, _, _) =>
    case Array(item, _, _, _) => ItemsArePlain(env, item, d.items);
    case Object(_, _, _, _) => MembersArePlain(env, s, d.members);
    case Union(options) =>
      var k :| 0 <= k < |options| && Conforms(env, options[k], d);
      ConformsIsPlain(env, options[k], d);
  }

  lemma {:induction false} ItemsArePlain(env: Env, item: Schema, m: Items)
    requires !env.allowUnknown && AllTyped(item) && ItemsConform(env, item, m)
    ensures PlainItems(item, m)
    decreases item, 3, m
  {
    if m.Item? {
      ConformsIsPlain(env, item, m.value);
      ItemsArePlain(env, item, m.rest);
    }
  }

  lemma {:induction false} MembersArePlain(env: Env, s: Schema, m: Members)
    requires s.Object? && !env.allowUnknown && AllTyped(s) && MembersConform(env, s, m)
    ensures PlainMembers(s, m)
    decreases s, 1, m
  {
    if m.Member? {
      ConformsIsPlain(env, s.fields[FieldIndex(s.fields, m.key)].schema, m.value);
      MembersArePlain(env, s, m.rest);
    }
  }
}
