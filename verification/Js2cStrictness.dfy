/**
 What a schema says when its `required` and `additionalProperties` are taken literally,
 and exactly when everything a generated parser accepts meets it.
 */
module Js2cStrictness {
  import opened Options
  import opened JsonDocument
  import opened JsmnRoundTrip
  import opened S = Js2cSchema
  import opened Js2cParser
  import opened Js2cConformance
  import opened Js2cEndToEnd

  /** Every name an object requires is there, whatever has a default, and a key it does not
      declare only where that object allows it. */
  predicate Strict(env: Env, s: Schema, d: Doc)
    decreases s, 2
  {
    match s
    case Leaf(_, _, _) => Conforms(env, s, d)
    case Raw => true
    case Void => true
    case Array(item, minItems, maxItems, _) =>
      d.Arr? && minItems <= ItemCount(d.items) <= maxItems && StrictItems(env, item, d.items)
    case Object(_, _, _, _) => d.Obj? && StrictMembers(env, s, d.members) && AllRequired(s, d.members)
    case Union(options) => exists k :: 0 <= k < |options| && Strict(env, options[k], d)
  }

  predicate StrictItems(env: Env, item: Schema, m: Items)
    decreases item, 3, m
  {
    m.Item? ==> Strict(env, item, m.value) && StrictItems(env, item, m.rest)
  }

  predicate StrictMembers(env: Env, s: Schema, m: Members)
    requires s.Object?
    decreases s, 1, m
  {
    m.Member? ==>
      && StrictMembers(env, s, m.rest)
      && if Declared(s.fields, m.key)
         then Strict(env, s.fields[FieldIndex(s.fields, m.key)].schema, m.value) && !HasKey(m.rest, m.key)
         else s.additionalProperties
  }

  predicate AllRequired(s: Schema, m: Members)
    requires s.Object?
  {
    forall name :: name in s.required ==> HasKey(m, name)
  }

  /** No object requires a name it does not declare or one whose field has a default, and
      where the global setting permits unknown keys every object permits them. Items of an
      array that can only be empty do not matter. */
  predicate Tight(s: Schema, allow: bool) {
    match s
    case Leaf(_, _, _) => true
    case Raw => true
    case Void => true
    case Array(item, _, maxItems, _) => maxItems == 0 || Tight(item, allow)
    case Object(fields, _, additional, _) =>
      RequiresTightly(s) && (allow ==> additional) && forall i :: 0 <= i < |fields| ==> Tight(fields[i].schema, allow)
    case Union(options) => forall i :: 0 <= i < |options| ==> Tight(options[i], allow)
  }

  predicate RequiresTightly(s: Schema)
    requires s.Object?
  {
    forall name :: name in s.required ==>
      Declared(s.fields, name) && !HasDefault(s.fields[FieldIndex(s.fields, name)].schema)
  }

  // ------------------------------------------------- tight schemas are strict

  lemma {:induction false} TightIsStrict(env: Env, s: Schema, d: Doc)
    requires Tight(s, env.allowUnknown) && Conforms(env, s, d)
    ensures Strict(env, s, d)
    decreases s, 2
  {
    match s
    case Leaf(_, _, _) =>
    case Raw =>
    case Void =>
    case Array(item, _, maxItems, _) =>
      if d.items.Item? {
        TightItems(env, item, d.items);
      }
    case Object(_, _, _, _) =>
      TightMembers(env, s, d.members);
      TightRequired(s, d.members);
    case Union(options) =>
      var k :| 0 <= k < |options| && Conforms(env, options[k], d);
      TightIsStrict(env, options[k], d);
  }

  lemma {:induction false} TightItems(env: Env, item: Schema, m: Items)
    requires Tight(item, env.allowUnknown) && ItemsConform(env, item, m)
    ensures StrictItems(env, item, m)
    decreases item, 3, m
  {
    if m.Item? {
      TightIsStrict(env, item, m.value);
      TightItems(env, item, m.rest);
    }
  }

  lemma {:induction false} TightMembers(env: Env, s: Schema, m: Members)
    requires s.Object? && Tight(s, env.allowUnknown) && MembersConform(env, s, m)
    ensures StrictMembers(env, s, m)
    decreases s, 1, m
  {
    if m.Member? {
      TightMembers(env, s, m.rest);
      if Declared(s.fields, m.key) {
        TightIsStrict(env, s.fields[FieldIndex(s.fields, m.key)].schema, m.value);
      }
    }
  }

  lemma TightRequired(s: Schema, m: Members)
    requires s.Object? && RequiresTightly(s) && NoneMissing(s, m)
    ensures AllRequired(s, m)
  {
    forall name | name in s.required ensures HasKey(m, name) {
      var i := FieldIndex(s.fields, name);
      assert HasKey(m, s.fields[i].name) || MayBeAbsent(s.fields[i], s.required);
    }
  }

  // --------------------------------------------- documents that are not strict

  /** Accepted for what it is, but not literally what the schema says. */
  ghost predicate Lax(env: Env, s: Schema, d: Doc) {
    WellFormed(d) && Conforms(env, s, d) && !Strict(env, s, d)
  }

  /** A document can have the field: its name is a string body and some value conforms. */
  ghost predicate Writable(env: Env, f: Field) {
    StringBody(f.name) && exists d :: WellFormed(d) && Conforms(env, f.schema, d)
  }

  /** The exact condition for such documents. An array has one when it can have an item and
      its items do; an object, when it has documents at all and requires a name loosely,
      lets an unknown key by against its own word, or has a field that does. For a union it
      is said of its documents: another option may take strictly what one takes loosely. */
  ghost predicate CanBeLax(env: Env, s: Schema) {
    match s
    case Leaf(_, _, _) => false
    case Raw => false
    case Void => false
    case Array(item, minItems, maxItems, _) => minItems <= maxItems && maxItems > 0 && CanBeLax(env, item)
    case Object(fields, required, additional, _) =>
      && (forall i :: 0 <= i < |fields| ==> Writable(env, fields[i]) || MayBeAbsent(fields[i], required))
      && (|| !RequiresTightly(s)
          || (env.allowUnknown && !additional)
          || exists i :: 0 <= i < |fields| && StringBody(fields[i].name) && CanBeLax(env, fields[i].schema))
    case Union(_) => exists d :: Lax(env, s, d)
  }

  // ----------------------------------------------------------- building one

  /** The same value `n` times. */
  function Repeated(d: Doc, n: nat): (m: Items)
    ensures ItemCount(m) == n
  {
    if n == 0 then NoItems else Item("", d, "", Repeated(d, n - 1))
  }

  lemma {:induction false} RepeatedConforms(env: Env, item: Schema, d: Doc, n: nat)
    requires WellFormed(d) && Conforms(env, item, d)
    ensures ItemsWellFormed(Repeated(d, n)) && ItemsConform(env, item, Repeated(d, n))
    ensures n > 0 && !Strict(env, item, d) ==> !StrictItems(env, item, Repeated(d, n))
    decreases n
  {
    if n > 0 {
      RepeatedConforms(env, item, d, n - 1);
    }
  }

  /** The fields from `k` on that have a value. */
  function Listed(fields: seq<Field>, vals: seq<Option<Doc>>, k: nat): Members
    requires |vals| == |fields| && k <= |fields|
    decreases |fields| - k
  {
    if k == |fields| then NoMembers
    else
      var rest := Listed(fields, vals, k + 1);
      if vals[k].None? then rest else Member("", fields[k].name, "", "", vals[k].value, "", rest)
  }

  lemma {:induction false} ListedKeys(fields: seq<Field>, vals: seq<Option<Doc>>, k: nat, name: string)
    requires |vals| == |fields| && k <= |fields|
    ensures HasKey(Listed(fields, vals, k), name) <==>
            exists i :: k <= i < |fields| && fields[i].name == name && vals[i].Some?
    decreases |fields| - k
  {
    if k < |fields| {
      ListedKeys(fields, vals, k + 1, name);
    }
  }

  /** Values that conform, for some of the fields. */
  ghost predicate Values(env: Env, s: Schema, vals: seq<Option<Doc>>)
    requires s.Object?
  {
    && |vals| == |s.fields| && DistinctNames(s.fields)
    && forall i :: 0 <= i < |vals| && vals[i].Some? ==>
         && WellFormed(vals[i].value) && StringBody(s.fields[i].name)
         && Conforms(env, s.fields[i].schema, vals[i].value)
  }

  /** Every field without one may be absent. */
  predicate Enough(s: Schema, vals: seq<Option<Doc>>)
    requires s.Object? && |vals| == |s.fields|
  {
    forall i :: 0 <= i < |vals| && vals[i].None? ==> MayBeAbsent(s.fields[i], s.required)
  }

  lemma IndexOfField(fields: seq<Field>, k: nat)
    requires k < |fields| && DistinctNames(fields)
    ensures FieldIndex(fields, fields[k].name) == k && Declared(fields, fields[k].name)
  {
    var i := FieldIndex(fields, fields[k].name);
    DeclaredIsName(fields, fields[k].name);
    assert fields[k].name in FieldNames(fields);
    assert i <= k;
  }

  lemma {:induction false} ListedConforms(env: Env, s: Schema, vals: seq<Option<Doc>>, k: nat)
    requires s.Object? && Values(env, s, vals) && k <= |s.fields|
    ensures var m := Listed(s.fields, vals, k); MembersWellFormed(m) && MembersConform(env, s, m)
    decreases |s.fields| - k
  {
    if k < |s.fields| {
      ListedConforms(env, s, vals, k + 1);
      IndexOfField(s.fields, k);
      ListedKeys(s.fields, vals, k + 1, s.fields[k].name);
    }
  }

  lemma {:induction false} ListedNotStrict(env: Env, s: Schema, vals: seq<Option<Doc>>, k: nat, bad: nat)
    requires s.Object? && Values(env, s, vals) && k <= bad < |s.fields| && vals[bad].Some?
    requires !Strict(env, s.fields[bad].schema, vals[bad].value)
    ensures !StrictMembers(env, s, Listed(s.fields, vals, k))
    decreases |s.fields| - k
  {
    IndexOfField(s.fields, k);
    if k < bad {
      ListedNotStrict(env, s, vals, k + 1, bad);
    }
  }

  lemma ListedIsComplete(s: Schema, vals: seq<Option<Doc>>)
    requires s.Object? && |vals| == |s.fields| && Enough(s, vals)
    ensures NoneMissing(s, Listed(s.fields, vals, 0))
  {
    forall i | 0 <= i < |s.fields|
      ensures HasKey(Listed(s.fields, vals, 0), s.fields[i].name) || MayBeAbsent(s.fields[i], s.required)
    {
      ListedKeys(s.fields, vals, 0, s.fields[i].name);
    }
  }

  /** A value for every writable field from `k` on. */
  lemma {:induction false} Chosen(env: Env, s: Schema, k: nat) returns (vals: seq<Option<Doc>>)
    requires s.Object? && k <= |s.fields|
    ensures |vals| == |s.fields| - k
    ensures forall i :: 0 <= i < |vals| ==> (vals[i].Some? <==> Writable(env, s.fields[k + i]))
    ensures forall i :: 0 <= i < |vals| && vals[i].Some? ==>
              WellFormed(vals[i].value) && Conforms(env, s.fields[k + i].schema, vals[i].value)
    decreases |s.fields| - k
  {
    if k == |s.fields| {
      vals := [];
    } else {
      var one: Option<Doc> := None;
      if Writable(env, s.fields[k]) {
        var d :| WellFormed(d) && Conforms(env, s.fields[k].schema, d);
        one := Some(d);
      }
      var rest := Chosen(env, s, k + 1);
      vals := [one] + rest;
    }
  }

  /** A key longer than every declared one. */
  function Longer(fields: seq<Field>): (key: string)
    ensures forall i :: 0 <= i < |fields| ==> |fields[i].name| < |key|
    ensures forall i :: 0 <= i < |key| ==> key[i] == 'x'
  {
    if fields == [] then "x"
    else
      var rest, own := Longer(fields[1..]), seq(|fields[0].name| + 1, i => 'x');
      assert forall i :: 1 <= i < |fields| ==> fields[i] == fields[1..][i - 1];
      if |rest| >= |own| then rest else own
  }

  lemma {:induction false} PlainKey(key: string, i: nat)
    requires i <= |key| && forall j :: 0 <= j < |key| ==> key[j] == 'x'
    ensures StringBodyFrom(key, i)
    decreases |key| - i
  {
    if i < |key| {
      PlainKey(key, i + 1);
    }
  }

  lemma FreshKey(fields: seq<Field>) returns (key: string)
    ensures StringBody(key) && !Declared(fields, key)
  {
    key := Longer(fields);
    PlainKey(key, 0);
  }

  lemma LaxUnknown(env: Env, s: Schema, vals: seq<Option<Doc>>) returns (d: Doc)
    requires s.Object? && Values(env, s, vals) && Enough(s, vals) && env.allowUnknown && !s.additionalProperties
    ensures d.Obj? && Lax(env, s, d)
  {
    var key := FreshKey(s.fields);
    var m := Listed(s.fields, vals, 0);
    ListedConforms(env, s, vals, 0);
    ListedIsComplete(s, vals);
    var extra := Member("", key, "", "", Arr("", NoItems), "", m);
    d := Obj("", extra);
    assert WellFormed(extra.value) && MembersWellFormed(extra);
    assert MembersConform(env, s, extra) && !StrictMembers(env, s, extra);
    StillComplete(s, m, extra);
  }

  lemma StillComplete(s: Schema, m: Members, more: Members)
    requires s.Object? && NoneMissing(s, m) && more.Member? && more.rest == m
    ensures NoneMissing(s, more)
  {
    forall i | 0 <= i < |s.fields| ensures HasKey(more, s.fields[i].name) || MayBeAbsent(s.fields[i], s.required) {
      assert HasKey(m, s.fields[i].name) || MayBeAbsent(s.fields[i], s.required);
    }
  }

  lemma LaxRequired(env: Env, s: Schema, vals: seq<Option<Doc>>) returns (d: Doc)
    requires s.Object? && Values(env, s, vals) && Enough(s, vals) && !RequiresTightly(s)
    ensures d.Obj? && Lax(env, s, d)
  {
    var name :| name in s.required &&
      !(Declared(s.fields, name) && !HasDefault(s.fields[FieldIndex(s.fields, name)].schema));
    var i := FieldIndex(s.fields, name);
    var fewer := if i < |s.fields| then vals[i := None] else vals;
    forall k | 0 <= k < |s.fields| && s.fields[k].name == name ensures k == i {
      IndexOfField(s.fields, k);
    }
    ListedConforms(env, s, fewer, 0);
    ListedIsComplete(s, fewer);
    ListedKeys(s.fields, fewer, 0, name);
    d := Obj("", Listed(s.fields, fewer, 0));
    assert !AllRequired(s, d.members);
  }

  lemma LaxField(env: Env, s: Schema, vals: seq<Option<Doc>>, bad: nat, v: Doc) returns (d: Doc)
    requires s.Object? && Values(env, s, vals) && Enough(s, vals)
    requires bad < |s.fields| && StringBody(s.fields[bad].name) && Lax(env, s.fields[bad].schema, v)
    ensures d.Obj? && Lax(env, s, d)
  {
    var with := vals[bad := Some(v)];
    ListedConforms(env, s, with, 0);
    ListedIsComplete(s, with);
    ListedNotStrict(env, s, with, 0, bad);
    d := Obj("", Listed(s.fields, with, 0));
  }

  lemma LaxArray(env: Env, s: Schema, one: Doc) returns (d: Doc)
    requires s.Array? && s.minItems <= s.maxItems && s.maxItems > 0 && Lax(env, s.item, one)
    ensures d.Arr? && Lax(env, s, d)
  {
    var n := if s.minItems > 0 then s.minItems else 1;
    RepeatedConforms(env, s.item, one, n);
    d := Arr("", Repeated(one, n));
  }

  lemma SomeValues(env: Env, s: Schema) returns (vals: seq<Option<Doc>>)
    requires s.Object? && DistinctNames(s.fields)
    requires forall i :: 0 <= i < |s.fields| ==> Writable(env, s.fields[i]) || MayBeAbsent(s.fields[i], s.required)
    ensures Values(env, s, vals) && Enough(s, vals)
  {
    vals := Chosen(env, s, 0);
    forall i | 0 <= i < |vals|
      ensures vals[i].None? ==> MayBeAbsent(s.fields[i], s.required)
      ensures vals[i].Some? ==> StringBody(s.fields[i].name)
    {
      assert vals[i].Some? <==> Writable(env, s.fields[0 + i]);
    }
  }

  /** The object itself is loose. */
  lemma LaxHere(env: Env, s: Schema) returns (d: Doc)
    requires s.Object? && DistinctNames(s.fields)
    requires forall i :: 0 <= i < |s.fields| ==> Writable(env, s.fields[i]) || MayBeAbsent(s.fields[i], s.required)
    requires !RequiresTightly(s) || (env.allowUnknown && !s.additionalProperties)
    ensures d.Obj? && Lax(env, s, d)
  {
    var vals := SomeValues(env, s);
    if RequiresTightly(s) {
      d := LaxUnknown(env, s, vals);
    } else {
      d := LaxRequired(env, s, vals);
    }
  }

  /** Where the condition holds, there is such a document. */
  lemma {:induction false} LaxDocument(env: Env, s: Schema) returns (d: Doc)
    requires Generates(s, env.allowUnknown) && CanBeLax(env, s)
    ensures Lax(env, s, d) && (s.Object? ==> d.Obj?) && (s.Array? ==> d.Arr?)
    decreases s
  {
    match s
    case Array(item, _, _, _) =>
      var one := LaxDocument(env, item);
      d := LaxArray(env, s, one);
    case Object(fields, _, additional, _) =>
      if RequiresTightly(s) && (env.allowUnknown ==> additional) {
        var bad: nat :| bad < |fields| && StringBody(fields[bad].name) && CanBeLax(env, fields[bad].schema);
        assert Generates(fields[bad].schema, env.allowUnknown);
        var v := LaxDocument(env, fields[bad].schema);
        var vals := SomeValues(env, s);
        d := LaxField(env, s, vals, bad, v);
      } else {
        d := LaxHere(env, s);
      }
    case Union(_) => d :| Lax(env, s, d);
  }

  // ------------------------------------------------------------ reading one

  lemma {:induction false} LaxItem(env: Env, item: Schema, m: Items)
    requires Generates(item, env.allowUnknown)
    requires ItemsWellFormed(m) && ItemsConform(env, item, m) && !StrictItems(env, item, m)
    ensures CanBeLax(env, item)
    decreases item, 3, m
  {
    if Strict(env, item, m.value) {
      LaxItem(env, item, m.rest);
    } else {
      LaxMeans(env, item, m.value);
    }
  }

  /** A field that is there is writable. */
  lemma {:induction false} ThereIsWritable(env: Env, s: Schema, m: Members, i: nat)
    requires s.Object? && DistinctNames(s.fields) && i < |s.fields|
    requires MembersWellFormed(m) && MembersConform(env, s, m) && HasKey(m, s.fields[i].name)
    ensures Writable(env, s.fields[i])
    decreases m
  {
    IndexOfField(s.fields, i);
    if m.key != s.fields[i].name {
      ThereIsWritable(env, s, m.rest, i);
    }
  }

  /** What a member that is not strict shows. */
  lemma {:induction false} LaxMember(env: Env, s: Schema, m: Members)
    requires s.Object? && Generates(s, env.allowUnknown)
    requires MembersWellFormed(m) && MembersConform(env, s, m) && !StrictMembers(env, s, m)
    ensures || (env.allowUnknown && !s.additionalProperties)
            || exists i :: 0 <= i < |s.fields| && StringBody(s.fields[i].name) && CanBeLax(env, s.fields[i].schema)
    decreases s, 1, m
  {
    if !StrictMembers(env, s, m.rest) {
      LaxMember(env, s, m.rest);
    } else if Declared(s.fields, m.key) {
      var i := FieldIndex(s.fields, m.key);
      assert Generates(s.fields[i].schema, env.allowUnknown);
      LaxMeans(env, s.fields[i].schema, m.value);
    }
  }

  lemma LooselyRequired(s: Schema, m: Members)
    requires s.Object? && NoneMissing(s, m) && !AllRequired(s, m)
    ensures !RequiresTightly(s)
  {
    if RequiresTightly(s) {
      TightRequired(s, m);
    }
  }

  /** Where there is such a document, the condition holds. */
  lemma {:induction false} LaxMeans(env: Env, s: Schema, d: Doc)
    requires Generates(s, env.allowUnknown) && Lax(env, s, d)
    ensures CanBeLax(env, s)
    decreases s, 2
  {
    match s
    case Leaf(_, _, _) =>
    case Raw =>
    case Void =>
    case Array(item, _, _, _) => LaxItem(env, item, d.items);
    case Object(fields, required, _, _) =>
      forall i | 0 <= i < |fields| ensures Writable(env, fields[i]) || MayBeAbsent(fields[i], required) {
        assert HasKey(d.members, fields[i].name) || MayBeAbsent(fields[i], required);
        if HasKey(d.members, fields[i].name) {
          ThereIsWritable(env, s, d.members, i);
        }
      }
      if AllRequired(s, d.members) {
        LaxMember(env, s, d.members);
      } else {
        LooselyRequired(s, d.members);
      }
    case Union(_) =>
  }

  // ------------------------------------------------------------- the theorem

  /** Whatever the generated parser accepts, with whatever buffer, is strict. */
  ghost predicate AcceptsOnlyStrict(env: Env, s: Schema) {
    forall f: File, slots: nat :: f.Valid() && ParseRoot(env, s, slots, f.Print()).Accept? ==> Strict(env, s, f.root)
  }

  /** A lax document in brackets is one the parser accepts. */
  lemma AcceptsAlone(env: Env, s: Schema, d: Doc)
    requires Generates(s, env.allowUnknown) && Bracketed(d) && Lax(env, s, d)
    ensures ParseRoot(env, s, TokenCount(d), Text(d)).Accept? && !Strict(env, s, d)
    ensures !AcceptsOnlyStrict(env, s)
  {
    var f := File("", d, "");
    assert f.Print() == Text(d);
    RootDecides(env, s, TokenCount(d), f);
    assert f.Valid() && !Strict(env, s, f.root);
  }

  /** A generated parser accepts only what meets its schema literally exactly when the
      condition fails; a union at the root, whose options may be scalars, exactly when none
      of its array and object documents is lax. */
  lemma StrictExactly(env: Env, s: Schema)
    requires Generates(s, env.allowUnknown)
    ensures AcceptsOnlyStrict(env, s) <==> !exists d :: Bracketed(d) && Lax(env, s, d)
    ensures !s.Union? ==> (AcceptsOnlyStrict(env, s) <==> !CanBeLax(env, s))
  {
    if d :| Bracketed(d) && Lax(env, s, d) {
      AcceptsAlone(env, s, d);
      LaxMeans(env, s, d);
    } else {
      forall f: File, slots: nat | f.Valid() && ParseRoot(env, s, slots, f.Print()).Accept?
        ensures Strict(env, s, f.root)
      {
        RootDecides(env, s, slots, f);
        assert !Lax(env, s, f.root);
      }
      if !s.Union? && CanBeLax(env, s) {
        var d := LaxDocument(env, s);
        assert Bracketed(d);
      }
    }
  }

  /** A parser for a tight schema accepts only what meets it literally, unions included. */
  lemma TightAcceptsOnlyStrict(env: Env, s: Schema)
    requires Generates(s, env.allowUnknown) && Tight(s, env.allowUnknown)
    ensures AcceptsOnlyStrict(env, s)
  {
    forall f: File, slots: nat | f.Valid() && ParseRoot(env, s, slots, f.Print()).Accept?
      ensures Strict(env, s, f.root)
    {
      RootDecides(env, s, slots, f);
      TightIsStrict(env, s, f.root);
    }
  }

  /** Every part of the schema has documents, and its keys can be written. */
  ghost predicate Inhabited(env: Env, s: Schema) {
    && (exists d :: WellFormed(d) && Conforms(env, s, d))
    && match s
       case Leaf(_, _, _) => true
       case Raw => true
       case Void => true
       case Array(item, _, _, _) => Inhabited(env, item)
       case Object(fields, _, _, _) =>
         forall i :: 0 <= i < |fields| ==> StringBody(fields[i].name) && Inhabited(env, fields[i].schema)
       case Union(options) => forall i :: 0 <= i < |options| ==> Inhabited(env, options[i])
  }

  /** Every option of every union is tight. */
  predicate UnionsTight(s: Schema, allow: bool) {
    match s
    case Leaf(_, _, _) => true
    case Raw => true
    case Void => true
    case Array(item, _, _, _) => UnionsTight(item, allow)
    case Object(fields, _, _, _) => forall i :: 0 <= i < |fields| ==> UnionsTight(fields[i].schema, allow)
    case Union(options) => Tight(s, allow)
  }

  lemma InhabitedIsWritable(env: Env, f: Field)
    requires StringBody(f.name) && Inhabited(env, f.schema)
    ensures Writable(env, f)
  {
  }

  /** In a schema whose parts all have documents and whose unions are tight, the condition is
      one of the schema's own words: that it is not tight. */
  lemma {:induction false} LooseCanBeLax(env: Env, s: Schema)
    requires Inhabited(env, s) && UnionsTight(s, env.allowUnknown) && !Tight(s, env.allowUnknown)
    ensures CanBeLax(env, s)
    decreases s
  {
    match s
    case Array(item, _, _, _) => LooseCanBeLax(env, item);
    case Object(fields, _, additional, _) =>
      forall i | 0 <= i < |fields| ensures Writable(env, fields[i]) {
        InhabitedIsWritable(env, fields[i]);
      }
      if RequiresTightly(s) && (env.allowUnknown ==> additional) {
        var bad :| 0 <= bad < |fields| && !Tight(fields[bad].schema, env.allowUnknown);
        LooseCanBeLax(env, fields[bad].schema);
      }
  }

  lemma TightExactly(env: Env, s: Schema)
    requires Generates(s, env.allowUnknown) && Inhabited(env, s) && UnionsTight(s, env.allowUnknown)
    ensures CanBeLax(env, s) <==> !Tight(s, env.allowUnknown)
  {
    if CanBeLax(env, s) {
      var d := LaxDocument(env, s);
      if Tight(s, env.allowUnknown) {
        TightIsStrict(env, s, d);
      }
    } else if !Tight(s, env.allowUnknown) {
      LooseCanBeLax(env, s);
    }
  }

  // ----------------------------------------------------------------- inputs

  lemma EmptyObject(d: Doc)
    requires d == Obj("", NoMembers)
    ensures Text(d) == "{}" && TokenCount(d) == 1 && WellFormed(d) && Bracketed(d)
  {
  }

  lemma EmptyIsLax(env: Env, s: Schema, d: Doc)
    requires s.Object? && s.required == {"a"} && d == Obj("", NoMembers) && NoneMissing(s, NoMembers)
    ensures Lax(env, s, d)
  {
    EmptyObject(d);
    assert "a" in s.required && !HasKey(NoMembers, "a");
    assert MembersConform(env, s, NoMembers);
  }

  /** `a` is required and has a default: `{}` is accepted. */
  lemma DefaultExcusesRequired(env: Env, s: Schema, parser: nat, dflt: int) returns (d: Doc)
    requires s == Schema.Object([Field("a", Leaf(parser, true, Some(dflt)))], {"a"}, false, None)
    ensures ParseRoot(env, s, 1, Text(d)).Accept? && !Strict(env, s, d)
    ensures Generates(s, env.allowUnknown) && d == Obj("", NoMembers) && Text(d) == "{}"
  {
    d := Obj("", NoMembers);
    EmptyObject(d);
    EmptyIsLax(env, s, d);
    AcceptsAlone(env, s, d);
  }

  /** A required name that is no property is never looked for. */
  lemma UndeclaredRequiredIsIgnored(env: Env, s: Schema) returns (d: Doc)
    requires s == Schema.Object([], {"a"}, false, None)
    ensures ParseRoot(env, s, 1, Text(d)).Accept? && !Strict(env, s, d)
    ensures Generates(s, env.allowUnknown) && d == Obj("", NoMembers) && Text(d) == "{}"
  {
    d := Obj("", NoMembers);
    EmptyObject(d);
    EmptyIsLax(env, s, d);
    AcceptsAlone(env, s, d);
  }

  lemma OneEmptyMember(env: Env, s: Schema, m: Members)
    requires s == Schema.Object([], {}, false, None) && env.allowUnknown
    requires m == Member("", "a", "", "", Obj("", NoMembers), "", NoMembers)
    ensures MembersWellFormed(m) && MembersConform(env, s, m) && !StrictMembers(env, s, m)
  {
    assert StringBodyFrom("a", 1) && StringBody("a");
    assert WellFormed(m.value);
    assert MembersConform(env, s, NoMembers);
  }

  /** An object that forbids other keys accepts one under the global setting. */
  lemma UnknownKeyIsAccepted(env: Env, s: Schema) returns (d: Doc)
    requires env.allowUnknown && s == Schema.Object([], {}, false, None)
    ensures d.Obj? && HasKey(d.members, "a") && Generates(s, env.allowUnknown)
    ensures ParseRoot(env, s, TokenCount(d), Text(d)).Accept? && !Strict(env, s, d)
  {
    var m := Member("", "a", "", "", Obj("", NoMembers), "", NoMembers);
    OneEmptyMember(env, s, m);
    assert NoneMissing(s, m);
    d := Obj("", m);
    AcceptsAlone(env, s, d);
  }

  /** Why the condition on unions: of these two options the first is loose, and the second
      takes whatever it accepts strictly. */
  lemma StricterOptionHides(env: Env, s: Schema, loose: Schema, tight: Schema)
    requires !env.allowUnknown && s == Union([loose, tight])
    requires loose == Schema.Object([], {"a"}, false, None) && tight == Schema.Object([], {}, false, None)
    ensures Generates(s, env.allowUnknown) && !Tight(s, env.allowUnknown) && AcceptsOnlyStrict(env, s)
  {
    assert Generates(loose, env.allowUnknown) && Generates(tight, env.allowUnknown);
    assert forall i | 0 <= i < |s.options| :: s.options[i] == loose || s.options[i] == tight;
    assert Generates(s, env.allowUnknown);
    assert !RequiresTightly(loose) && !Tight(s.options[0], env.allowUnknown);
    forall f: File, slots: nat | f.Valid() && ParseRoot(env, s, slots, f.Print()).Accept?
      ensures Strict(env, s, f.root)
    {
      RootDecides(env, s, slots, f);
      var k :| 0 <= k < |s.options| && Conforms(env, s.options[k], f.root);
      assert f.root.members.NoMembers?;
      assert AllRequired(tight, f.root.members) && Strict(env, s.options[1], f.root);
    }
  }
}
