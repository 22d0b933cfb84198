/**
 Leaving a field out: which fields may be absent, and what is then stored, in terms of
 what writing the default out would have stored.
 */
module Js2cDefaults {
  import opened Options
  import opened JsonDocument
  import opened JsmnRoundTrip
  import opened S = Js2cSchema
  import opened Js2cParser
  import opened Js2cConformance
  import opened Js2cEndToEnd
  import opened Js2cSlices

  // ------------------------------------------------------ what may be absent

  /** A leaf whose schema names a default; an array or object whose schema names one, an
      array that may be empty, an object that requires nothing and all of whose fields may
      themselves be absent. */
  predicate Optional(s: Schema) {
    (s.Leaf? && s.dflt.Some?)
    || (s.Array? && (s.minItems == 0 || s.js2cDefault.Some?))
    || (s.Object? && (s.js2cDefault.Some? ||
                      (s.required == {} && forall f :: f in s.fields ==> Optional(f.schema))))
  }

  lemma {:induction false} OptionalHasDefault(s: Schema)
    ensures Optional(s) <==> HasDefault(s)
    decreases s
  {
    if s.Object? {
      forall f | f in s.fields ensures Optional(f.schema) <==> HasDefault(f.schema) {
        OptionalHasDefault(f.schema);
      }
    }
  }

  /** The generated parser accepts an object exactly when it fits, its members conform, and
      every declared name that is required and has no default is there. */
  lemma RootRequires(env: Env, s: Schema, slots: nat, f: File)
    requires s.Object? && Generates(s, env.allowUnknown) && f.Valid() && f.root.Obj?
    ensures ParseRoot(env, s, slots, f.Print()).Accept? <==>
            && TokenCount(f.root) <= slots && MembersConform(env, s, f.root.members)
            && forall i :: 0 <= i < |s.fields| ==>
                 || HasKey(f.root.members, s.fields[i].name) || s.fields[i].name !in s.required
                 || Optional(s.fields[i].schema)
  {
    RootDecides(env, s, slots, f);
    ObjectMeaning(env, s, f.root, |f.lead|);
    forall i | 0 <= i < |s.fields| ensures Optional(s.fields[i].schema) <==> HasDefault(s.fields[i].schema) {
      OptionalHasDefault(s.fields[i].schema);
    }
    assert NoneMissing(s, f.root.members) <==>
           forall i :: 0 <= i < |s.fields| ==>
             || HasKey(f.root.members, s.fields[i].name) || s.fields[i].name !in s.required
             || Optional(s.fields[i].schema);
  }

  // --------------------------------------------------- the default, written

  /** A value that says what the default says: for a leaf a text its parser reads as the
      default, for an array without a default of its own `[]`, for such an object `{}`. */
  predicate Writes(env: Env, s: Schema, w: Doc) {
    match s
    case Leaf(parser, _, dflt) => !Bracketed(w) && dflt.Some? && env.leaf(parser, w.Str?, ScalarText(w)) == dflt
    case Array(_, _, _, dflt) => dflt.None? && w.Arr? && w.items.NoItems?
    case Object(_, _, _, dflt) => dflt.None? && w.Obj? && w.members.NoMembers?
    case _ => false
  }

  lemma {:induction false} WrittenIsDefault(env: Env, s: Schema, w: Doc, p: nat)
    requires Generates(s, env.allowUnknown) && HasDefault(s) && Writes(env, s, w)
    ensures Conforms(env, s, w) && Decode(env, s, w, p) == DefaultOf(s)
  {
    match s
    case Leaf(_, _, _) =>
    case Array(_, _, _, _) =>
    case Object(_, _, _, _) => EmptyIsDefault(env, s, w, p, p + 1 + |w.pad|);
  }

  lemma EmptyIsDefault(env: Env, s: Schema, w: Doc, p: nat, q: nat)
    requires s.Object? && s.js2cDefault.None? && Generates(s, env.allowUnknown) && HasDefault(s)
    requires w.Obj? && w.members.NoMembers? && q == p + 1 + |w.pad|
    ensures Conforms(env, s, w) && Decode(env, s, w, p) == DefaultOf(s)
  {
    assert MembersConform(env, s, NoMembers) && NoneMissing(s, NoMembers);
    ObjectDecodes(env, s, w, p, NoMembers, q, Decode(env, s, w, p));
    EmptyFields(env, s, q);
  }

  lemma EmptyField(env: Env, s: Schema, q: nat, name: string)
    requires s.Object? && s.js2cDefault.None? && Generates(s, env.allowUnknown) && HasDefault(s)
    requires MembersConform(env, s, NoMembers)
    ensures SameAt(DecodeFields(env, s, NoMembers, q), DefaultOf(s).fields, name)
  {
    DeclaredIsName(s.fields, name);
    if Declared(s.fields, name) {
      var own := s.fields[FieldIndex(s.fields, name)].schema;
      assert HasDefault(own) && Generates(own, env.allowUnknown);
      DefaultStores(own, env.allowUnknown);
    }
  }

  lemma EmptyFields(env: Env, s: Schema, q: nat)
    requires s.Object? && s.js2cDefault.None? && Generates(s, env.allowUnknown) && HasDefault(s)
    requires MembersConform(env, s, NoMembers)
    ensures Record(DecodeFields(env, s, NoMembers, q)) == DefaultOf(s)
  {
    var a, b := DecodeFields(env, s, NoMembers, q), DefaultOf(s).fields;
    forall name ensures SameAt(a, b, name) {
      EmptyField(env, s, q, name);
    }
    SameEverywhere(a, b);
  }

  // ---------------------------------------------------------- one member more

  /** The members with another at the end. */
  function Appended(m: Members, x: Members): Members
    requires x.Member?
  {
    if m.NoMembers? then x.(rest := NoMembers) else m.(rest := Appended(m.rest, x))
  }

  lemma {:induction false} AppendedKeys(m: Members, x: Members, key: string)
    requires x.Member?
    ensures HasKey(Appended(m, x), key) <==> HasKey(m, key) || key == x.key
    decreases m
  {
    if m.Member? {
      AppendedKeys(m.rest, x, key);
    }
  }

  /** The members before it stay where they are. */
  lemma {:induction false} AppendedMember(m: Members, x: Members, p: nat, key: string)
    requires x.Member? && HasKey(m, key)
    ensures HasKey(Appended(m, x), key)
    ensures MemberOf(Appended(m, x), key).value == MemberOf(m, key).value
    ensures ValueStart(MemberOf(Appended(m, x), key), MemberStart(Appended(m, x), p, key)) ==
            ValueStart(MemberOf(m, key), MemberStart(m, p, key))
    decreases m
  {
    if m.key != key {
      assert NextMember(Appended(m, x), p) == NextMember(m, p);
      AppendedMember(m.rest, x, NextMember(m, p), key);
    }
  }

  lemma {:induction false} AppendedLast(m: Members, x: Members)
    requires x.Member? && !HasKey(m, x.key)
    ensures HasKey(Appended(m, x), x.key) && MemberOf(Appended(m, x), x.key).value == x.value
    decreases m
  {
    if m.Member? {
      AppendedLast(m.rest, x);
    }
  }

  lemma {:induction false} AppendedConforms(env: Env, s: Schema, m: Members, x: Members)
    requires s.Object? && x.Member? && Declared(s.fields, x.key) && !HasKey(m, x.key)
    requires Conforms(env, s.fields[FieldIndex(s.fields, x.key)].schema, x.value)
    ensures MembersConform(env, s, Appended(m, x)) <==> MembersConform(env, s, m)
    decreases m
  {
    if m.Member? {
      AppendedConforms(env, s, m.rest, x);
      AppendedKeys(m.rest, x, m.key);
    }
  }

  /** Appending the default, written out, stores what leaving it out stores. */
  lemma AppendedField(env: Env, s: Schema, m: Members, x: Members, p: nat, name: string)
    requires s.Object? && Generates(s, env.allowUnknown) && MembersConform(env, s, m)
    requires x.Member? && Declared(s.fields, x.key) && !HasKey(m, x.key) && MembersConform(env, s, Appended(m, x))
    requires var own := s.fields[FieldIndex(s.fields, x.key)].schema; HasDefault(own) && Writes(env, own, x.value)
    ensures StoredFor(s, m, name) <==> StoredFor(s, Appended(m, x), name)
    ensures StoredFor(s, m, name) ==> DecodeField(env, s, m, p, name) == DecodeField(env, s, Appended(m, x), p, name)
  {
    AppendedKeys(m, x, name);
    if HasKey(m, name) {
      AppendedMember(m, x, p, name);
    } else if name == x.key {
      AppendedLast(m, x);
      var i := FieldIndex(s.fields, name);
      assert Generates(s.fields[i].schema, env.allowUnknown);
      var later := Appended(m, x);
      WrittenIsDefault(env, s.fields[i].schema, x.value,
                       ValueStart(MemberOf(later, name), MemberStart(later, p, name)));
    }
  }

  lemma AppendedFields(env: Env, s: Schema, m: Members, x: Members, p: nat)
    requires s.Object? && Generates(s, env.allowUnknown) && MembersConform(env, s, m)
    requires x.Member? && Declared(s.fields, x.key) && !HasKey(m, x.key) && MembersConform(env, s, Appended(m, x))
    requires var own := s.fields[FieldIndex(s.fields, x.key)].schema; HasDefault(own) && Writes(env, own, x.value)
    ensures DecodeFields(env, s, m, p) == DecodeFields(env, s, Appended(m, x), p)
  {
    var a, b := DecodeFields(env, s, m, p), DecodeFields(env, s, Appended(m, x), p);
    forall name ensures SameAt(a, b, name) {
      AppendedField(env, s, m, x, p, name);
    }
    SameEverywhere(a, b);
  }

  lemma AppendedComplete(s: Schema, m: Members, x: Members)
    requires s.Object? && x.Member? && DistinctNames(s.fields)
    requires Declared(s.fields, x.key) && HasDefault(s.fields[FieldIndex(s.fields, x.key)].schema)
    ensures NoneMissing(s, m) <==> NoneMissing(s, Appended(m, x))
  {
    forall i | 0 <= i < |s.fields|
      ensures HasKey(m, s.fields[i].name) || MayBeAbsent(s.fields[i], s.required) <==>
              HasKey(Appended(m, x), s.fields[i].name) || MayBeAbsent(s.fields[i], s.required)
    {
      AppendedKeys(m, x, s.fields[i].name);
      if s.fields[i].name == x.key {
        assert FieldIndex(s.fields, x.key) == i;
      }
    }
  }

  // ------------------------------------------------------------- the theorem

  /** Leaving a field out stores exactly what writing its default out would store: for every
      generated parser and every object, the two texts are accepted alike and give the same. */
  lemma LeavingOutIsWritingOut(env: Env, s: Schema, slots: nat, f: File, name: string, w: Doc, g: File)
    requires s.Object? && Generates(s, env.allowUnknown) && f.Valid() && f.root.Obj?
    requires Declared(s.fields, name) && !HasKey(f.root.members, name)
    requires var own := s.fields[FieldIndex(s.fields, name)].schema; Optional(own) && Writes(env, own, w)
    requires g.Valid() && g.lead == f.lead && TokenCount(f.root) <= slots && TokenCount(g.root) <= slots
    requires g.root == Obj(f.root.pad, Appended(f.root.members, Member("", name, "", "", w, "", NoMembers)))
    ensures var a, b := ParseRoot(env, s, slots, f.Print()), ParseRoot(env, s, slots, g.Print());
            (a.Accept? <==> b.Accept?) && (a.Accept? ==> a.out == b.out)
  {
    var m, x, q := f.root.members, Member("", name, "", "", w, "", NoMembers), |f.lead| + 1 + |f.root.pad|;
    var own := s.fields[FieldIndex(s.fields, name)].schema;
    OptionalHasDefault(own);
    assert Generates(own, env.allowUnknown);
    WrittenIsDefault(env, own, w, 0);
    AppendedConforms(env, s, m, x);
    AppendedComplete(s, m, x);
    RootOf(env, s, slots, f, m, q);
    RootOf(env, s, slots, g, Appended(m, x), q);
    if MembersConform(env, s, m) {
      AppendedFields(env, s, m, x, q);
    }
  }

  /** What the root parser makes of an object, member by member. */
  lemma RootOf(env: Env, s: Schema, slots: nat, f: File, m: Members, q: nat)
    requires s.Object? && Generates(s, env.allowUnknown) && f.Valid() && f.root.Obj? && TokenCount(f.root) <= slots
    requires m == f.root.members && q == |f.lead| + 1 + |f.root.pad|
    ensures var r := ParseRoot(env, s, slots, f.Print());
            && r.Accept? == (MembersConform(env, s, m) && NoneMissing(s, m))
            && (r.Accept? ==> r.out == Record(DecodeFields(env, s, m, q)))
  {
    RootDecides(env, s, slots, f);
    ObjectMeaning(env, s, f.root, |f.lead|);
    if Conforms(env, s, f.root) {
      ObjectDecodes(env, s, f.root, |f.lead|, m, q, ParseRoot(env, s, slots, f.Print()).out);
    }
  }

  /** A default the schema names is what is stored, a leaf's as its value, an array's or
      object's own as it stands. */
  lemma NamedDefaultIsStored(env: Env, s: Schema, slots: nat, f: File, i: nat)
    requires s.Object? && Generates(s, env.allowUnknown) && f.Valid() && f.root.Obj? && i < |s.fields|
    requires !HasKey(f.root.members, s.fields[i].name) && ParseRoot(env, s, slots, f.Print()).Accept?
    ensures var out := ParseRoot(env, s, slots, f.Print()).out; var own := s.fields[i].schema;
            && out.Record?
            && (own.Leaf? && own.dflt.Some? ==>
                  s.fields[i].name in out.fields && out.fields[s.fields[i].name] == Value(own.dflt.value))
            && ((own.Array? || own.Object?) && own.js2cDefault.Some? ==>
                  s.fields[i].name in out.fields && out.fields[s.fields[i].name] == own.js2cDefault.value)
  {
    var m, q, name := f.root.members, |f.lead| + 1 + |f.root.pad|, s.fields[i].name;
    RootDecides(env, s, slots, f);
    RootOf(env, s, slots, f, m, q);
    DeclaredIsName(s.fields, name);
    assert name in FieldNames(s.fields) && FieldIndex(s.fields, name) == i;
    var own := s.fields[i].schema;
    assert Generates(own, env.allowUnknown);
    if HasDefault(own) {
      DefaultStores(own, env.allowUnknown);
      assert StoredFor(s, m, name);
      assert DecodeField(env, s, m, q, name) == DefaultOf(own);
    }
  }

  /** What an accepted object stores: a declared name that is there or has a default, unless its
      value has no C type, a void or a leaf that stores nothing; and no other name. */
  lemma StoredExactly(env: Env, s: Schema, slots: nat, f: File, name: string)
    requires s.Object? && Generates(s, env.allowUnknown) && f.Valid() && f.root.Obj?
    requires ParseRoot(env, s, slots, f.Print()).Accept?
    ensures ParseRoot(env, s, slots, f.Print()).out.Record?
    ensures name in ParseRoot(env, s, slots, f.Print()).out.fields <==>
            exists i :: && 0 <= i < |s.fields| && s.fields[i].name == name
                        && (HasKey(f.root.members, name) || Optional(s.fields[i].schema))
                        && !s.fields[i].schema.Void? && (s.fields[i].schema.Leaf? ==> s.fields[i].schema.stores)
  {
    RootDecides(env, s, slots, f);
    RootOf(env, s, slots, f, f.root.members, |f.lead| + 1 + |f.root.pad|);
    DeclaredIsName(s.fields, name);
    if Declared(s.fields, name) {
      OptionalHasDefault(s.fields[FieldIndex(s.fields, name)].schema);
      assert forall i :: 0 <= i < |s.fields| && s.fields[i].name == name ==> i == FieldIndex(s.fields, name);
    }
  }
}
