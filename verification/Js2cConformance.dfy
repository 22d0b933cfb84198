/**
 What a schema means, independently of the parser: which documents conform, and what
 is stored for them. The generated parser is proved to decide exactly this.
 */
module Js2cConformance {
  import opened Jsmn
  import opened JsonDocument
  import opened JsmnRoundTrip
  import opened Js2cRuntime
  import opened S = Js2cSchema
  import opened Js2cParser

  // ------------------------------------------------------------- the meaning

  /** A document conforms when each part has the type the schema gives it. Keys are
      compared as raw text. An object may leave out what `MayBeAbsent` lets it, must not
      repeat a declared key, and may have other keys if the global setting says so. */
  predicate Conforms(env: Env, s: Schema, d: Doc)
    decreases s, 2
  {
    match s
    case Leaf(parser, _, _) => !Bracketed(d) && env.leaf(parser, d.Str?, ScalarText(d)).Some?
    case Raw => true
    case Void => true
    case Array(item, minItems, maxItems, _) =>
      d.Arr? && minItems <= ItemCount(d.items) <= maxItems && ItemsConform(env, item, d.items)
    case Object(_, _, _, _) => d.Obj? && MembersConform(env, s, d.members) && NoneMissing(s, d.members)
    case Union(options) => exists k :: 0 <= k < |options| && Conforms(env, options[k], d)
  }

  function ScalarText(d: Doc): string
    requires !Bracketed(d)
  {
    if d.Str? then d.body else d.text
  }

  predicate ItemsConform(env: Env, item: Schema, items: Items)
    decreases item, 3, items
  {
    items.Item? ==> Conforms(env, item, items.value) && ItemsConform(env, item, items.rest)
  }

  predicate HasKey(m: Members, key: string) {
    m.Member? && (m.key == key || HasKey(m.rest, key))
  }

  predicate NoneMissing(s: Schema, m: Members)
    requires s.Object?
  {
    forall i :: 0 <= i < |s.fields| ==> HasKey(m, s.fields[i].name) || MayBeAbsent(s.fields[i], s.required)
  }

  predicate MembersConform(env: Env, s: Schema, m: Members)
    requires s.Object?
    decreases s, 1, m
  {
    m.Member? ==>
      && MembersConform(env, s, m.rest)
      && if Declared(s.fields, m.key)
         then Conforms(env, s.fields[FieldIndex(s.fields, m.key)].schema, m.value) && !HasKey(m.rest, m.key)
         else env.allowUnknown
  }

  /** What is stored for a conforming value whose text starts at `p`. */
  function Decode(env: Env, s: Schema, d: Doc, p: nat): Out
    requires Conforms(env, s, d)
    decreases s, 2
  {
    match s
    case Leaf(parser, stores, _) =>
      if stores then Value(env.leaf(parser, d.Str?, ScalarText(d)).value) else Nothing
    case Raw => Slice(HeadToken(d, p).start, HeadToken(d, p).end - HeadToken(d, p).start)
    case Void => Nothing
    case Array(item, _, _, _) => List(DecodeItems(env, item, d.items, p + 1 + |d.pad|))
    case Object(_, _, _, _) => Record(DecodeFields(env, s, d.members, p + 1 + |d.pad|))
    case Union(options) =>
      var k := FirstOption(env, s, d, 0);
      Choice(k, Decode(env, options[k], d, p))
  }

  function DecodeItems(env: Env, item: Schema, items: Items, p: nat): seq<Out>
    requires ItemsConform(env, item, items)
    decreases item, 3, items
  {
    if items.NoItems? then []
    else [Decode(env, item, items.value, p + |items.pre|)] + DecodeItems(env, item, items.rest, NextItem(items, p))
  }

  function DecodeFields(env: Env, s: Schema, m: Members, p: nat): map<string, Out>
    requires s.Object? && MembersConform(env, s, m)
    decreases s, 1, 1
  {
    map name | name in FieldNames(s.fields) && StoredFor(s, m, name) :: DecodeField(env, s, m, p, name)
  }

  /** A field with a C type is stored when it is present or has a default. */
  predicate StoredFor(s: Schema, m: Members, name: string)
    requires s.Object?
  {
    Declared(s.fields, name) &&
    var f := s.fields[FieldIndex(s.fields, name)].schema;
    Stores(f) && (HasKey(m, name) || HasDefault(f))
  }

  /** The member of that key. */
  function MemberOf(m: Members, key: string): (r: Members)
    requires HasKey(m, key)
    ensures r.Member? && r.key == key
  {
    if m.key == key then m else MemberOf(m.rest, key)
  }

  /** Where the text of that member starts. */
  function MemberStart(m: Members, p: nat, key: string): nat
    requires HasKey(m, key)
    decreases m
  {
    if m.key == key then p else MemberStart(m.rest, NextMember(m, p), key)
  }

  lemma {:induction false} MemberConforms(env: Env, s: Schema, m: Members, key: string)
    requires s.Object? && MembersConform(env, s, m) && HasKey(m, key) && Declared(s.fields, key)
    ensures Conforms(env, s.fields[FieldIndex(s.fields, key)].schema, MemberOf(m, key).value)
    decreases m
  {
    if m.key != key {
      MemberConforms(env, s, m.rest, key);
    }
  }

  /** The value found in the document, else the default. */
  function DecodeField(env: Env, s: Schema, m: Members, p: nat, name: string): Out
    requires s.Object? && MembersConform(env, s, m) && StoredFor(s, m, name)
    decreases s, 1, 0
  {
    var i := FieldIndex(s.fields, name);
    if HasKey(m, name) then
      MemberConforms(env, s, m, name);
      Decode(env, s.fields[i].schema, MemberOf(m, name).value, ValueStart(MemberOf(m, name), MemberStart(m, p, name)))
    else DefaultOf(s.fields[i].schema)
  }

  /** The first option, from `k` on, that the value conforms to. */
  function FirstOption(env: Env, s: Schema, d: Doc, k: nat): (r: nat)
    requires s.Union? && exists j :: k <= j < |s.options| && Conforms(env, s.options[j], d)
    ensures k <= r < |s.options| && Conforms(env, s.options[r], d)
    ensures forall j :: k <= j < r ==> !Conforms(env, s.options[j], d)
    decreases s, 1, |s.options| - k
  {
    if Conforms(env, s.options[k], d) then k else FirstOption(env, s, d, k + 1)
  }

  // --------------------------------------------- the document in the tokens

  /** The tokens from `cur` on are those of `d`, and each key's and scalar's span slices out
      its text. */
  predicate Stands(js: string, ts: seq<Token>, cur: nat, p: nat, d: Doc)
    decreases d
  {
    && cur < |ts| && ts[cur] == HeadToken(d, p)
    && match d
       case Str(body) => TokenText(js, ts[cur]) == body
       case Prim(text) => TokenText(js, ts[cur]) == text
       case Arr(pad, items) => StandItems(js, ts, cur + 1, p + 1 + |pad|, items)
       case Obj(pad, members) => StandMembers(js, ts, cur + 1, p + 1 + |pad|, members)
  }

  predicate StandItems(js: string, ts: seq<Token>, cur: nat, p: nat, m: Items)
    decreases m
  {
    m.Item? ==>
      && Stands(js, ts, cur, p + |m.pre|, m.value)
      && StandItems(js, ts, cur + TokenCount(m.value), NextItem(m, p), m.rest)
  }

  predicate StandMembers(js: string, ts: seq<Token>, cur: nat, p: nat, m: Members)
    decreases m
  {
    m.Member? ==>
      && cur < |ts| && ts[cur] == KeyToken(m, p) && TokenText(js, ts[cur]) == m.key
      && Stands(js, ts, cur + 1, ValueStart(m, p), m.value)
      && StandMembers(js, ts, cur + 1 + TokenCount(m.value), NextMember(m, p), m.rest)
  }

  // ------------------------------------------------------------ skipping one

  lemma {:induction false} SkipDoc(js: string, ts: seq<Token>, cur: nat, p: nat, d: Doc, need: nat)
    requires Stands(js, ts, cur, p, d) && need > 0
    ensures Skip(ts, cur, need) == Skip(ts, cur + TokenCount(d), need - 1)
    decreases d
  {
    match d
    case Str(_) =>
    case Prim(_) =>
    case Arr(pad, items) => SkipItems(js, ts, cur + 1, p + 1 + |pad|, items, need - 1);
    case Obj(pad, members) => SkipMembers(js, ts, cur + 1, p + 1 + |pad|, members, need - 1);
  }

  lemma {:induction false} SkipItems(js: string, ts: seq<Token>, cur: nat, p: nat, m: Items, need: nat)
    requires StandItems(js, ts, cur, p, m)
    ensures Skip(ts, cur, need + ItemCount(m)) == Skip(ts, cur + ItemTokenCount(m), need)
    decreases m
  {
    if m.Item? {
      SkipDoc(js, ts, cur, p + |m.pre|, m.value, need + ItemCount(m));
      SkipItems(js, ts, cur + TokenCount(m.value), NextItem(m, p), m.rest, need);
    }
  }

  lemma {:induction false} SkipMembers(js: string, ts: seq<Token>, cur: nat, p: nat, m: Members, need: nat)
    requires StandMembers(js, ts, cur, p, m)
    ensures Skip(ts, cur, need + MemberCount(m)) == Skip(ts, cur + MemberTokenCount(m), need)
    decreases m
  {
    if m.Member? {
      SkipDoc(js, ts, cur + 1, ValueStart(m, p), m.value, need + MemberCount(m));
      SkipMembers(js, ts, cur + 1 + TokenCount(m.value), NextMember(m, p), m.rest, need);
    }
  }

  // ------------------------------------------------------------- the theorem

  /** The parser's verdict on a document: accepted exactly when it conforms, the cursor
      advanced by the document's tokens, and the right things stored. */
  predicate Verdict(env: Env, s: Schema, d: Doc, p: nat, cur: nat, r: Parsed<Out>) {
    if Conforms(env, s, d) then r == Accept(cur + TokenCount(d), Decode(env, s, d, p)) else r.Reject?
  }

  lemma {:induction false} ParserDecides(env: Env, js: string, ts: seq<Token>, s: Schema, cur: nat, d: Doc, p: nat)
    requires Generates(s, env.allowUnknown) && Stands(js, ts, cur, p, d)
    ensures Verdict(env, s, d, p, cur, ParseValue(env, js, ts, s, cur))
    decreases s, 4, 0
  {
    match s
    case Leaf(_, _, _) =>
    case Raw => SkipDoc(js, ts, cur, p, d, 1);
    case Void => SkipDoc(js, ts, cur, p, d, 1);
    case Array(item, _, _, _) =>
      if d.Arr? {
        ItemsDecide(env, js, ts, item, cur + 1, d.items, p + 1 + |d.pad|);
      }
    case Object(_, _, _, _) =>
      if d.Obj? {
        ObjectDecides(env, js, ts, s, cur, d, p);
      }
    case Union(_) => OptionsDecide(env, js, ts, s, 0, cur, d, p);
  }

  lemma {:induction false} ItemsDecide(env: Env, js: string, ts: seq<Token>, item: Schema, cur: nat, m: Items, p: nat)
    requires Generates(item, env.allowUnknown) && StandItems(js, ts, cur, p, m)
    ensures var r := ParseItems(env, js, ts, item, cur, ItemCount(m));
            if ItemsConform(env, item, m)
            then r == Accept(cur + ItemTokenCount(m), DecodeItems(env, item, m, p))
            else r.Reject?
    decreases item, 5, m
  {
    if m.Item? {
      ParserDecides(env, js, ts, item, cur, m.value, p + |m.pre|);
      ItemsDecide(env, js, ts, item, cur + TokenCount(m.value), m.rest, NextItem(m, p));
    }
  }

  lemma {:induction false} OptionsDecide(
    env: Env, js: string, ts: seq<Token>, s: Schema, k: nat, cur: nat, d: Doc, p: nat)
    requires s.Union? && k <= |s.options| && Generates(s, env.allowUnknown) && Stands(js, ts, cur, p, d)
    ensures var r := TryOptions(env, js, ts, s, k, cur);
            if exists j :: k <= j < |s.options| && Conforms(env, s.options[j], d)
            then
              var j := FirstOption(env, s, d, k);
              r == Accept(cur + TokenCount(d), Choice(j, Decode(env, s.options[j], d, p)))
            else r.Reject?
    decreases s, 2, |s.options| - k
  {
    if k < |s.options| {
      ParserDecides(env, js, ts, s.options[k], cur, d, p);
      OptionsDecide(env, js, ts, s, k + 1, cur, d, p);
    }
  }

  /** The keys of a member list that name a declared field. */
  function DeclaredKeys(s: Schema, m: Members): set<string>
    requires s.Object?
  {
    if m.NoMembers? then {}
    else (if Declared(s.fields, m.key) then {m.key} else {}) + DeclaredKeys(s, m.rest)
  }

  lemma {:induction false} DeclaredKeysAre(s: Schema, m: Members, key: string)
    requires s.Object?
    ensures key in DeclaredKeys(s, m) <==> Declared(s.fields, key) && HasKey(m, key)
    decreases m
  {
    if m.Member? {
      DeclaredKeysAre(s, m.rest, key);
    }
  }

  /** The loop has stored `m`'s declared values on top of what was there. */
  ghost predicate Collected(env: Env, s: Schema, m: Members, p: nat, before: map<string, Out>, after: map<string, Out>)
    requires s.Object? && MembersConform(env, s, m)
  {
    && (forall name :: name in after <==>
         || name in before
         || (Declared(s.fields, name) && HasKey(m, name) && Stores(s.fields[FieldIndex(s.fields, name)].schema)))
    && (forall name :: name in after ==>
         after[name] ==
         if Declared(s.fields, name) && HasKey(m, name) && Stores(s.fields[FieldIndex(s.fields, name)].schema)
         then DecodeField(env, s, m, p, name)
         else if name in before then before[name] else Nothing)
  }

  /** The member loop rejects exactly a bad member, an unknown key, or a declared key that
      was seen before. */
  ghost predicate MembersVerdict(env: Env, s: Schema, m: Members, p: nat, cur: nat, so: Fields, r: Parsed<Fields>)
    requires s.Object?
  {
    if MembersConform(env, s, m) && so.seen !! DeclaredKeys(s, m)
    then
      && r.Accept? && r.cur == cur + MemberTokenCount(m)
      && r.out.seen == so.seen + DeclaredKeys(s, m)
      && Collected(env, s, m, p, so.out, r.out.out)
    else r.Reject?
  }

  /** One turn of it. */
  predicate MemberVerdict(env: Env, s: Schema, m: Members, p: nat, cur: nat, so: Fields, r: Parsed<Fields>)
    requires s.Object? && m.Member?
  {
    if !Declared(s.fields, m.key)
    then if env.allowUnknown then r == Accept(cur + 1 + TokenCount(m.value), so) else r.Reject?
    else
      var f := s.fields[FieldIndex(s.fields, m.key)];
      if Conforms(env, f.schema, m.value) && m.key !in so.seen
      then r == Accept(cur + 1 + TokenCount(m.value), Store(so, f, Decode(env, f.schema, m.value, ValueStart(m, p))))
      else r.Reject?
  }

  lemma {:induction false} MembersDecide(
    env: Env, js: string, ts: seq<Token>, s: Schema, cur: nat, m: Members, p: nat, so: Fields)
    requires s.Object? && Generates(s, env.allowUnknown) && StandMembers(js, ts, cur, p, m)
    ensures MembersVerdict(env, s, m, p, cur, so, ParseMembers(env, js, ts, s, cur, MemberCount(m), so))
    decreases s, 2, m
  {
    if m.Member? {
      MemberDecides(env, js, ts, s, cur, m, p, so);
      var r := ParseMember(env, js, ts, s, cur, so);
      if r.Accept? {
        MembersDecide(env, js, ts, s, r.cur, m.rest, NextMember(m, p), r.out);
        MembersStep(env, s, m, p, cur, so, r, ParseMembers(env, js, ts, s, r.cur, MemberCount(m.rest), r.out));
      }
    }
  }

  lemma MembersStep(
    env: Env, s: Schema, m: Members, p: nat, cur: nat, so: Fields, one: Parsed<Fields>, all: Parsed<Fields>)
    requires s.Object? && m.Member? && MemberVerdict(env, s, m, p, cur, so, one) && one.Accept?
    requires MembersVerdict(env, s, m.rest, NextMember(m, p), one.cur, one.out, all)
    ensures MembersVerdict(env, s, m, p, cur, so, all)
  {
    DeclaredKeysAre(s, m.rest, m.key);
    if all.Accept? {
      CollectMember(env, s, m, p, so, one.out, all.out.out);
    }
  }

  lemma {:induction false} MemberDecides(
    env: Env, js: string, ts: seq<Token>, s: Schema, cur: nat, m: Members, p: nat, so: Fields)
    requires s.Object? && m.Member? && Generates(s, env.allowUnknown) && StandMembers(js, ts, cur, p, m)
    ensures MemberVerdict(env, s, m, p, cur, so, ParseMember(env, js, ts, s, cur, so))
    decreases s, 1, m
  {
    if Declared(s.fields, m.key) {
      ParserDecides(env, js, ts, s.fields[FieldIndex(s.fields, m.key)].schema, cur + 1, m.value, ValueStart(m, p));
    } else {
      SkipDoc(js, ts, cur + 1, ValueStart(m, p), m.value, 1);
    }
  }

  lemma CollectMember(env: Env, s: Schema, m: Members, p: nat, so: Fields, one: Fields, after: map<string, Out>)
    requires s.Object? && m.Member? && MembersConform(env, s, m)
    requires one == if Declared(s.fields, m.key)
                    then Store(so, s.fields[FieldIndex(s.fields, m.key)],
                               Decode(env, s.fields[FieldIndex(s.fields, m.key)].schema, m.value, ValueStart(m, p)))
                    else so
    requires Collected(env, s, m.rest, NextMember(m, p), one.out, after)
    ensures Collected(env, s, m, p, so.out, after)
  {
    forall name | name in after
      ensures after[name] ==
              if Declared(s.fields, name) && HasKey(m, name) && Stores(s.fields[FieldIndex(s.fields, name)].schema)
              then DecodeField(env, s, m, p, name)
              else if name in so.out then so.out[name] else Nothing
    {
      if Declared(s.fields, name) && HasKey(m.rest, name) {
        assert name != m.key;
      }
    }
  }

  lemma {:induction false} ObjectDecides(env: Env, js: string, ts: seq<Token>, s: Schema, cur: nat, d: Doc, p: nat)
    requires s.Object? && d.Obj? && Generates(s, env.allowUnknown) && Stands(js, ts, cur, p, d)
    ensures Verdict(env, s, d, p, cur, ParseObject(env, js, ts, s, cur))
    decreases s, 3, 2
  {
    var r := ObjectMembers(env, js, ts, s, cur, d, p);
    LoopDecides(env, js, ts, s, cur, d, p, d.members, p + 1 + |d.pad|, r);
  }

  lemma {:induction false} LoopDecides(
    env: Env, js: string, ts: seq<Token>, s: Schema, cur: nat, d: Doc, p: nat, m: Members, q: nat, r: Parsed<Fields>)
    requires s.Object? && d.Obj? && d.members == m && p + 1 + |d.pad| == q
    requires Generates(s, env.allowUnknown) && StandMembers(js, ts, cur + 1, q, m)
    requires r == ParseMembers(env, js, ts, s, cur + 1, MemberCount(m), Fields({}, map[]))
    ensures Verdict(env, s, d, p, cur, FinishObject(s, r))
    decreases s, 3, 1
  {
    MembersDecide(env, js, ts, s, cur + 1, m, q, Fields({}, map[]));
    var ok := FinishDecides(env, s, m, q, cur + 1, r);
    VerdictOf(env, s, d, p, cur, m, q, ok, FinishObject(s, r));
  }

  /** What parsing a conforming object gives, from its members on. */
  function ObjectParsed(env: Env, s: Schema, m: Members, p: nat, cur: nat): Parsed<Out>
    requires s.Object? && MembersConform(env, s, m)
  {
    Accept(cur + MemberTokenCount(m), Record(DecodeFields(env, s, m, p)))
  }

  /** After the loop, an object is accepted when all its members conform and none is missing. */
  lemma FinishDecides(env: Env, s: Schema, m: Members, p: nat, cur: nat, r: Parsed<Fields>) returns (ok: bool)
    requires s.Object? && Generates(s, env.allowUnknown)
    requires MembersVerdict(env, s, m, p, cur, Fields({}, map[]), r)
    ensures ok == (MembersConform(env, s, m) && NoneMissing(s, m))
    ensures FinishObject(s, r) == if ok then ObjectParsed(env, s, m, p, cur) else Reject
  {
    ok := FinishObject(s, r).Accept?;
    if r.Accept? {
      RequiredIsAbsent(s, m, r.out.seen);
      DefaultsComplete(env, s, m, p, r.out);
    }
  }

  lemma VerdictOf(env: Env, s: Schema, d: Doc, p: nat, cur: nat, m: Members, q: nat, ok: bool, o: Parsed<Out>)
    requires s.Object? && d.Obj? && d.members == m && p + 1 + |d.pad| == q
    requires ok == (MembersConform(env, s, m) && NoneMissing(s, m))
    requires o == if ok then ObjectParsed(env, s, m, q, cur + 1) else Reject
    ensures Verdict(env, s, d, p, cur, o)
  {
    ObjectMeaning(env, s, d, p);
  }

  lemma ObjectMembers(
    env: Env, js: string, ts: seq<Token>, s: Schema, cur: nat, d: Doc, p: nat) returns (r: Parsed<Fields>)
    requires s.Object? && d.Obj? && Stands(js, ts, cur, p, d)
    ensures StandMembers(js, ts, cur + 1, p + 1 + |d.pad|, d.members)
    ensures r == ParseMembers(env, js, ts, s, cur + 1, MemberCount(d.members), Fields({}, map[]))
    ensures ParseObject(env, js, ts, s, cur) == FinishObject(s, r)
  {
    r := ParseMembers(env, js, ts, s, cur + 1, MemberCount(d.members), Fields({}, map[]));
  }

  lemma ObjectMeaning(env: Env, s: Schema, d: Doc, p: nat)
    requires s.Object? && d.Obj?
    ensures Conforms(env, s, d) == (MembersConform(env, s, d.members) && NoneMissing(s, d.members))
    ensures Conforms(env, s, d) ==> Decode(env, s, d, p) == Record(DecodeFields(env, s, d.members, p + 1 + |d.pad|))
    ensures TokenCount(d) == 1 + MemberTokenCount(d.members)
  {
  }

  lemma RequiredIsAbsent(s: Schema, m: Members, seen: set<string>)
    requires s.Object? && seen == DeclaredKeys(s, m)
    ensures MissingRequired(s, seen) <==> !NoneMissing(s, m)
  {
    forall i | 0 <= i < |s.fields| ensures s.fields[i].name in seen <==> HasKey(m, s.fields[i].name) {
      DeclaredKeysAre(s, m, s.fields[i].name);
      assert s.fields[i].name in FieldNames(s.fields);
      DeclaredIsName(s.fields, s.fields[i].name);
    }
  }

  /** Every field with a C type ends up stored: as parsed, or as its default. */
  lemma DefaultsComplete(env: Env, s: Schema, m: Members, p: nat, so: Fields)
    requires s.Object? && Generates(s, env.allowUnknown) && MembersConform(env, s, m)
    requires so.seen == DeclaredKeys(s, m)
    requires Collected(env, s, m, p, map[], so.out)
    ensures SetDefaults(s, so) == DecodeFields(env, s, m, p)
  {
    var got, want := SetDefaults(s, so), DecodeFields(env, s, m, p);
    forall name ensures SameAt(got, want, name) {
      FieldComplete(env, s, m, p, so, name);
    }
    SameEverywhere(got, want);
  }

  predicate SameAt(a: map<string, Out>, b: map<string, Out>, name: string) {
    (name in a <==> name in b) && (name in b ==> a[name] == b[name])
  }

  lemma SameEverywhere(a: map<string, Out>, b: map<string, Out>)
    requires forall name :: SameAt(a, b, name)
    ensures a == b
  {
    assert forall name :: name in a <==> name in b by {
      forall name ensures name in a <==> name in b {
        assert SameAt(a, b, name);
      }
    }
    forall name | name in b ensures a[name] == b[name] {
      assert SameAt(a, b, name);
    }
  }

  lemma FieldComplete(env: Env, s: Schema, m: Members, p: nat, so: Fields, name: string)
    requires s.Object? && Generates(s, env.allowUnknown) && MembersConform(env, s, m)
    requires so.seen == DeclaredKeys(s, m)
    requires Collected(env, s, m, p, map[], so.out)
    ensures SameAt(SetDefaults(s, so), DecodeFields(env, s, m, p), name)
  {
    DeclaredKeysAre(s, m, name);
    DeclaredIsName(s.fields, name);
    if Declared(s.fields, name) {
      var f := s.fields[FieldIndex(s.fields, name)];
      assert Generates(f.schema, env.allowUnknown);
      if HasDefault(f.schema) {
        DefaultStores(f.schema, env.allowUnknown);
      }
    }
  }

  /** Only what stores something can have a default. */
  lemma DefaultStores(s: Schema, allow: bool)
    requires Generates(s, allow) && HasDefault(s)
    ensures Stores(s)
  {
  }
}
